/** Back-pressure of the S3TP server: when the output of a command is held back while the
    channel is full, and exactly when it is not. */
module Throttling {
  import opened Framing
  import opened Processes
  import opened Links
  import opened Sessions

  /** The process is polled for output although earlier output is still waiting. */
  predicate Overfed(l: Link) {
    l.channel.Some? && l.process.Some? && l.process.value.reading && l.outbuf != []
  }

  /** The callback starts a command on a full channel. */
  predicate StartsOnFull(l: Link, cb: Callback) {
    cb.Data? && !cb.accepts && l.channel.Some? && l.process.None?
    && Complete(l.buf + cb.chunk) && !RefusedFront(Server, l.buf + cb.chunk)
  }

  /** The callback neither sends nor stops the output: it does not apply, or brings input, or
      the process was ended by SIGTERM. */
  predicate LeavesOutput(l: Link, cb: Callback) {
    || !Enabled(l, cb)
    || (cb.Data? && !RefusedFront(Server, l.buf + cb.chunk))
    || (cb.ProcessExit? && cb.signal == SIGTERM)
  }

  // ------------------------------------------------------------- one step

  lemma DataOverfeeds(l: Link, chunk: bytes, stale: byte, accepts: bool, up: bool)
    requires Sessions.Invariant(l) && l.channel.Some?
    ensures var b := l.buf + chunk;
            Overfed(OnData(l, chunk, stale, accepts, up))
            <==> !RefusedFront(Server, b)
                 && (Overfed(l) || (Complete(b) && l.process.None? && !accepts))
  {
    var b := l.buf + chunk;
    var l1 := Buffered(l, chunk);
    OnDataCases(l, chunk, stale, accepts, up);
    if Complete(b) && !RefusedFront(Server, b) {
      var kind := if l.expected == 0 then b[4] else stale;
      var l2 := l1.(expected := LengthOf(b));
      hide OnData, LengthOf, RefusedFront, Complete, Invariant, Deliver;
      DeliverOverfeeds(l2, kind, FrontFrame(b).payload, accepts);
    }
    hide OnData, LengthOf, RefusedFront, Complete, Invariant, Deliver;
  }

  lemma DeliverOverfeeds(l: Link, kind: byte, payload: bytes, accepts: bool)
    requires l.channel.Some?
    ensures var r := Deliver(l, kind, payload, accepts);
      && (Overfed(r) <==> Overfed(l) || (l.process.None? && !accepts))
      && r.channel.Some? && r.buf == l.buf && r.expected == l.expected
  {
    hide Encode;
  }

  lemma SendNeverOverfeeds(l: Link, f: Frame, accepts: bool)
    requires Encodable(f) && l.channel.Some? && f.payload != []
    ensures !Overfed(Send(l, f, accepts))
  {
    hide Encode;
  }

  lemma ExitOverfeeds(l: Link, code: int64, signal: int, first: bool, second: Outcome)
    requires Sessions.Invariant(l) && l.channel.Some? && l.process.Some?
    ensures Overfed(OnExit(l, code, signal, first, second)) <==> signal == SIGTERM && Overfed(l)
  {
    hide Encode, ExitText, EncodeAll, Grammatical;
  }

  /** One callback: output that was held back is overtaken exactly by a start on a full
      channel, and goes on being overtaken exactly while no callback touches the output. */
  lemma OverfedStep(l: Link, cb: Callback)
    requires Sane(l) && Sessions.Invariant(l)
    ensures Overfed(Next(l, cb)) <==> if Overfed(l) then LeavesOutput(l, cb) else StartsOnFull(l, cb)
  {
    hide OnData, OnExit, Send, Grammatical, EncodeAll, Complete, RefusedFront;
    if Enabled(l, cb) {
      match cb
      case Data(chunk, stale, accepts, up) => DataOverfeeds(l, chunk, stale, accepts, up);
      case Output(err, data, accepts) =>
        if l.channel.Some? {
          SendNeverOverfeeds(l, Frame(if err then STDERR else STDOUT, data), accepts);
        } else {
          SendWithoutChannel(l, Frame(if err then STDERR else STDOUT, data), accepts);
        }
      case ProcessExit(code, signal, first, second) =>
        if l.channel.Some? {
          ExitOverfeeds(l, code, signal, first, second);
        } else {
          ExitWithoutChannel(l, code, first, second);
        }
      case BufferFull =>
      case BufferEmpty(outcome) =>
      case Disconnected(up) =>
      case TimerFired(up) =>
    }
  }

  lemma SendWithoutChannel(l: Link, f: Frame, accepts: bool)
    requires Encodable(f) && l.channel.None?
    ensures Send(l, f, accepts) == l
  {
  }

  lemma ExitWithoutChannel(l: Link, code: int64, first: bool, second: Outcome)
    requires l.process.Some? && l.channel.None?
    ensures OnExit(l, code, SIGTERM, first, second).channel.None?
  {
  }

  // ----------------------------------------------------------------- runs

  /** Back-pressure in every run: a callback makes the server poll for more output while some
      is waiting if and only if it starts a command on a full channel. This lasts exactly as
      long as no callback touches the output, and nothing is queued behind the start. */
  lemma BackPressure(up: bool, cbs: seq<Callback>, cb: Callback)
    ensures var l, r := Run(up, cbs), Run(up, cbs + [cb]);
      && (Overfed(r) <==> if Overfed(l) then LeavesOutput(l, cb) else StartsOnFull(l, cb))
      && (Overfed(r) ==> EndsWithStart(r))
  {
    hide *;
    RunInvariant(up, cbs);
    RunInvariant(up, cbs + [cb]);
    RunSnoc(up, cbs, cb);
    OverfedStep(Run(up, cbs), cb);
    LastStarted(Run(up, cbs + [cb]));
  }

  predicate EndsWithStart(l: Link) {
    l.channel.Some? &&
    var q := l.channel.value.queued;
    q != [] && q[|q| - 1] == Frame(STARTED, [])
  }

  lemma LastStarted(l: Link)
    requires Sessions.Invariant(l)
    ensures Overfed(l) ==> EndsWithStart(l)
  {
    if Overfed(l) {
      var q := l.channel.value.queued;
      assert ServerFrame(q[|q| - 1]);
    }
  }

  /** Callback `i` of the run starts a command on a full channel, and no later one touches
      the output. */
  predicate FullSince(up: bool, cbs: seq<Callback>, i: nat)
    requires i < |cbs|
  {
    Since(up, cbs, StartsOnFull, LeavesOutput, i)
  }

  /** The history of every state in which output is not held back. */
  lemma OverfedIffFullSince(up: bool, cbs: seq<Callback>)
    ensures Overfed(Run(up, cbs)) <==> exists i :: 0 <= i < |cbs| && FullSince(up, cbs, i)
  {
    hide Run, Next, Overfed, LeavesOutput, StartsOnFull, Since;
    StartIsNotOverfed(up);
    forall k | 0 <= k < |cbs|
      ensures Stepwise(Overfed, StartsOnFull, LeavesOutput, Run(up, cbs[..k]), cbs[k])
    {
      RunInvariant(up, cbs[..k]);
      OverfedStep(Run(up, cbs[..k]), cbs[k]);
      StartsWithoutProcess(Run(up, cbs[..k]), cbs[k]);
    }
    HoldsIffSince(up, cbs, Overfed, StartsOnFull, LeavesOutput);
    assert forall i :: 0 <= i < |cbs| ==> (FullSince(up, cbs, i) <==> Since(up, cbs, StartsOnFull, LeavesOutput, i));
  }

  lemma StartIsNotOverfed(up: bool)
    ensures !Overfed(Run(up, []))
  {
  }

  lemma StartsWithoutProcess(l: Link, cb: Callback)
    ensures StartsOnFull(l, cb) ==> !Overfed(l)
  {
  }

  predicate AlwaysHeldBack(up: bool, cbs: seq<Callback>) {
    forall k :: 0 <= k <= |cbs| ==> !Overfed(Run(up, cbs[..k]))
  }

  predicate NeverStartsOnFull(up: bool, cbs: seq<Callback>) {
    forall i :: 0 <= i < |cbs| ==> !StartsOnFull(Run(up, cbs[..i]), cbs[i])
  }

  /** Output is held back during a whole run if and only if no command of the run starts on a
      full channel. */
  lemma HeldBackIff(up: bool, cbs: seq<Callback>)
    ensures AlwaysHeldBack(up, cbs) <==> NeverStartsOnFull(up, cbs)
  {
    if NeverStartsOnFull(up, cbs) {
      forall k | 0 <= k <= |cbs|
        ensures !Overfed(Run(up, cbs[..k]))
      {
        OverfedHasStart(up, cbs, k);
      }
    }
    if AlwaysHeldBack(up, cbs) {
      forall i | 0 <= i < |cbs|
        ensures !StartsOnFull(Run(up, cbs[..i]), cbs[i])
      {
        StartOverfeeds(up, cbs, i);
      }
    }
  }

  lemma OverfedHasStart(up: bool, cbs: seq<Callback>, k: nat)
    requires k <= |cbs|
    ensures Overfed(Run(up, cbs[..k])) ==> !NeverStartsOnFull(up, cbs)
  {
    hide Run, Overfed, StartsOnFull, LeavesOutput;
    var part := cbs[..k];
    OverfedIffFullSince(up, part);
    if Overfed(Run(up, part)) {
      var i :| 0 <= i < k && FullSince(up, part, i);
      assert part[..i] == cbs[..i] && part[i] == cbs[i];
    }
  }

  lemma StartOverfeeds(up: bool, cbs: seq<Callback>, i: nat)
    requires i < |cbs|
    ensures StartsOnFull(Run(up, cbs[..i]), cbs[i]) ==> Overfed(Run(up, cbs[..i + 1]))
  {
    assert cbs[..i + 1] == cbs[..i] + [cbs[i]];
    hide *;
    BackPressure(up, cbs[..i], cbs[i]);
    StartsWithoutProcess(Run(up, cbs[..i]), cbs[i]);
  }

  /** Any first command that arrives while the channel is full makes a run that is not held
      back. */
  lemma OverfedRun(f: Frame, stale: byte, up: bool)
    requires Acceptable(Server, f)
    ensures !Overfed(Run(true, [])) && Overfed(Run(true, [Data(Encode(f), stale, false, up)]))
  {
    FirstCommand(f, stale, false, up);
    StartIsNotOverfed(true);
    hide Run, Encode;
  }
}
