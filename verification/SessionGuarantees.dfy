/** What a client of the S3TP server can rely on, over every run of callbacks. */
module SessionGuarantees {
  import opened Framing
  import opened Processes
  import opened Links
  import opened Sessions
  import opened RemoteExec

  // ------------------------------------------------------------- no stall

  /** After start, exactly one of a live channel and a pending timer is there, so a callback
      of one of the two can always come. The wait for a killed process is on exactly when the
      channel is gone and the process is not. A live channel may still serve a dead command,
      see module Stranded. */
  lemma NeverStalls(up: bool, cbs: seq<Callback>)
    ensures var l := Run(up, cbs);
      && (l.channel.Some? <==> l.timer == Idle)
      && (l.timer == KillWait <==> l.channel.None? && l.process.Some?)
  {
    RunInvariant(up, cbs);
  }

  // ------------------------------------------------------------ isolation

  predicate FreshSession(l: Link) {
    l.channel == Some(NEW_CHANNEL) && l.buf == [] && l.expected == 0 && l.outbuf == []
    && l.process.None?
  }

  /** The traffic of `d` continues that of `c`. */
  predicate Continues(c: Channel, d: Channel) {
    c.received <= d.received && c.consumed <= d.consumed && c.queued <= d.queued
    && c.sent <= d.sent && c.disconnects <= d.disconnects <= c.disconnects + 1
  }

  /** Within a session traffic only grows; otherwise the channel is gone, or a new session
      has begun with nothing left of the old one. */
  predicate Isolates(l: Link, r: Link) {
    if r.sessions == l.sessions then
      r.channel.Some? ==> l.channel.Some? && Continues(l.channel.value, r.channel.value)
    else r.sessions == l.sessions + 1 && FreshSession(r)
  }

  lemma ReconnectIsolates(l: Link, r: Link, up: bool)
    requires r.channel.None? && r.sessions == l.sessions
    ensures Isolates(l, Reconnect(r, up))
  {
  }

  lemma SendIsolates(l: Link, f: Frame, accepts: bool)
    requires Encodable(f)
    ensures Isolates(l, Send(l, f, accepts))
  {
    hide Encode;
  }

  lemma ExitIsolates(l: Link, code: int64, signal: int, first: bool, second: Outcome)
    requires l.process.Some? && (l.channel.Some? || signal == SIGTERM)
    ensures Isolates(l, OnExit(l, code, signal, first, second))
  {
    hide Encode, ExitText;
  }

  lemma BufferEmptyIsolates(l: Link, outcome: Outcome)
    requires l.channel.Some?
    ensures Isolates(l, OnBufferEmpty(l, outcome))
  {
  }

  lemma DeliverIsolates(l: Link, l1: Link, kind: byte, payload: bytes, accepts: bool)
    requires l.channel.Some? && l1.channel.Some? && OutSide(l1)
    requires l1.sessions == l.sessions && Continues(l.channel.value, l1.channel.value)
    ensures Isolates(l, Deliver(l1, kind, payload, accepts))
  {
    hide Send, OutSide;
    if l1.process.None? {
      SendIsolates(l1.(process := Some(Spawned(payload))), Frame(STARTED, []), accepts);
    }
    DeliverKeeps(l1, kind, payload, accepts);
  }

  lemma InputIsolates(l: Link, chunk: bytes, n: uint32, r: Link)
    requires l.channel.Some?
    ensures Continues(l.channel.value, Buffered(l, chunk).channel.value)
    ensures Isolates(l, Buffered(l, chunk)) && Isolates(l, Buffered(l, chunk).(expected := n))
    ensures (Isolates(l, r) && r.channel.Some? && r.sessions == l.sessions
             && |r.buf| >= HEADERSIZE + r.expected) ==> Isolates(l, Consume(r))
  {
  }

  lemma DataIsolates(l: Link, chunk: bytes, stale: byte, accepts: bool, up: bool)
    requires Sessions.Invariant(l) && l.channel.Some?
    ensures Isolates(l, OnData(l, chunk, stale, accepts, up))
  {
    var b := l.buf + chunk;
    var n: uint32 := if |b| >= HEADERSIZE then LengthOf(b) else 0;
    var l1 := Buffered(l, chunk);
    var l2 := l1.(expected := n);
    OnDataCases(l, chunk, stale, accepts, up);
    InputOutSide(l, chunk, n);
    InputIsolates(l, chunk, n, l);
    if RefusedFront(Server, b) {
      ReconnectIsolates(l, l1.(channel := None), up);
    } else if Complete(b) {
      hide OnData, LengthOf, RefusedFront, Complete, Deliver, OutSide, Isolates, Continues;
      var kind := if l.expected == 0 then b[4] else stale;
      DeliverKeeps(l2, kind, FrontFrame(b).payload, accepts);
      DeliverIsolates(l, l2, kind, FrontFrame(b).payload, accepts);
      InputIsolates(l, chunk, n, Deliver(l2, kind, FrontFrame(b).payload, accepts));
    }
  }

  lemma SessionsIsolated(up: bool, cbs: seq<Callback>, cb: Callback)
    ensures Isolates(Run(up, cbs), Run(up, cbs + [cb]))
  {
    hide *;
    RunSnoc(up, cbs, cb);
    RunInvariant(up, cbs);
    StepIsolates(Run(up, cbs), cb);
  }

  lemma StepIsolates(l: Link, cb: Callback)
    requires Sane(l) && Sessions.Invariant(l)
    ensures Isolates(l, Next(l, cb))
  {
    hide OnData, Send, OnExit, OnBufferEmpty, Faithful, Aligned, Reconnect;
    if Enabled(l, cb) {
      match cb
      case Data(chunk, stale, accepts, u) => DataIsolates(l, chunk, stale, accepts, u);
      case Output(err, data, accepts) => SendIsolates(l, Frame(if err then STDERR else STDOUT, data), accepts);
      case ProcessExit(code, signal, first, second) => ExitIsolates(l, code, signal, first, second);
      case BufferFull =>
      case BufferEmpty(outcome) => BufferEmptyIsolates(l, outcome);
      case Disconnected(u) => ReconnectIsolates(l, l.(channel := None), u);
      case TimerFired(u) =>
        ReconnectIsolates(l, if l.timer.KillWait? then l.(timer := Idle, process := None) else l.(timer := Idle), u);
    }
  }

  // ----------------------------------------------------------- soft-close

  /** The command has ended and was reported, or never started, and all output was accepted. A
      command ended by SIGTERM does not count: its process stays. */
  predicate Ended(l: Link) {
    l.process.None? && l.outbuf == []
  }

  predicate SameSession(l: Link, r: Link) {
    r.sessions == l.sessions && l.channel.Some? && r.channel.Some?
  }

  predicate SoftCloses(l: Link, r: Link)
    requires SameSession(l, r)
  {
    r.channel.value.disconnects == l.channel.value.disconnects + 1
  }

  /** Each callback soft-closes the session at most once, and exactly when it brings
      about that end: never with output left, never while the process is there, and as soon
      as the process is gone and the output accepted. */
  lemma SoftCloseExactlyAtEnd(up: bool, cbs: seq<Callback>, cb: Callback)
    requires SameSession(Run(up, cbs), Run(up, cbs + [cb]))
    ensures var l, r := Run(up, cbs), Run(up, cbs + [cb]);
      && (SoftCloses(l, r) <==> Ended(r) && !Ended(l))
      && (SoftCloses(l, r) || r.channel.value.disconnects == l.channel.value.disconnects)
      && (Ended(r) ==> AllEncodable(r.channel.value.queued)
                         && r.channel.value.sent == EncodeAll(r.channel.value.queued))
  {
    var l := Run(up, cbs);
    RunSnoc(up, cbs, cb);
    RunInvariant(up, cbs);
    RunInvariant(up, cbs + [cb]);
    EndedSends(Run(up, cbs + [cb]));
    CloseStep(l, cb);
  }

  lemma EndedSends(l: Link)
    requires Sessions.Invariant(l) && l.channel.Some?
    ensures Ended(l) ==> AllEncodable(l.channel.value.queued)
                           && l.channel.value.sent == EncodeAll(l.channel.value.queued)
  {
    assert l.channel.value.sent + [] == l.channel.value.sent;
  }

  lemma CloseStep(l: Link, cb: Callback)
    requires Sane(l) && Sessions.Invariant(l) && SameSession(l, Next(l, cb))
    ensures var r := Next(l, cb);
      && (SoftCloses(l, r) <==> Ended(r) && !Ended(l))
      && (SoftCloses(l, r) || r.channel.value.disconnects == l.channel.value.disconnects)
  {
    hide Encode, EncodeAll, Grammatical, ExitText, OnData, AllAcceptable, LengthOf;
    if Enabled(l, cb) {
      match cb
      case Data(chunk, stale, accepts, u) => DataNeverCloses(l, chunk, stale, accepts, u);
      case Output(err, data, accepts) =>
      case ProcessExit(code, signal, first, second) =>
      case BufferFull =>
      case BufferEmpty(outcome) =>
      case Disconnected(u) =>
      case TimerFired(u) =>
    }
  }

  lemma DataNeverCloses(l: Link, chunk: bytes, stale: byte, accepts: bool, up: bool)
    requires Sessions.Invariant(l) && l.channel.Some?
    requires SameSession(l, OnData(l, chunk, stale, accepts, up))
    ensures var r := OnData(l, chunk, stale, accepts, up);
            r.channel.value.disconnects == l.channel.value.disconnects && (Ended(r) ==> Ended(l))
  {
    var b := l.buf + chunk;
    var l1 := Buffered(l, chunk);
    OnDataCases(l, chunk, stale, accepts, up);
    if Complete(b) && !RefusedFront(Server, b) {
      hide OnData, LengthOf, RefusedFront, Complete, EncodeAll, Grammatical, Deliver, OutSide;
      var kind := if l.expected == 0 then b[4] else stale;
      InputOutSide(l, chunk, LengthOf(b));
      DeliverKeeps(l1.(expected := LengthOf(b)), kind, FrontFrame(b).payload, accepts);
    }
  }

  // -------------------------------------------------------------- fidelity

  lemma QueuedAcceptable(l: Link)
    requires Sessions.Invariant(l) && l.channel.Some?
    ensures AllAcceptable(Client, l.channel.value.queued)
  {
    var q := l.channel.value.queued;
    forall i | 0 <= i < |q|
      ensures Acceptable(Client, q[i])
    {
      FrameEncodable(q[i]);
    }
  }

  /** Output fidelity: at any time what the channel accepted, followed by what waits in the
      output buffer, is the frames queued in this session; these frames follow the grammar
      of a session, and are unfinished exactly while the process is there. */
  lemma OutputFidelity(up: bool, cbs: seq<Callback>)
    requires Run(up, cbs).channel.Some?
    ensures var l := Run(up, cbs); var c := l.channel.value;
      && AllAcceptable(Client, c.queued)
      && c.sent + l.outbuf == EncodeAll(c.queued)
      && Grammatical(c.queued, l.process.Some?)
  {
    RunInvariant(up, cbs);
    QueuedAcceptable(Run(up, cbs));
  }

  /** From the queue of the server to the screen of the client: whatever part of the bytes
      accepted has arrived, in whatever chunks, the client has decoded a prefix of the frames
      queued. If all of it arrived and the output buffer is empty it has decoded them all,
      and it goes on running exactly if the session has not seen an end. */
  lemma ServerToClient(up: bool, cbs: seq<Callback>, chunks: seq<bytes>)
    requires Run(up, cbs).channel.Some?
    requires Flatten(chunks) <= Run(up, cbs).channel.value.sent
    ensures var l := Run(up, cbs); var c := l.channel.value;
            var v := ReceiveAll(FRESH_CLIENT, chunks);
      && v.frames <= c.queued && !v.crashed
      && (Flatten(chunks) == c.sent && l.outbuf == [] ==>
            v == ClientView([], c.queued, !HasEnd(c.queued), Printed(c.queued), false))
  {
    hide Run, EncodeAll, Grammatical, ReceiveAll, Flatten, Parse, Printed, HasEnd;
    OutputFidelity(up, cbs);
    var l := Run(up, cbs);
    var c := l.channel.value;
    assert c.sent <= EncodeAll(c.queued);
    FramingPrefix(c.queued, chunks);
    if Flatten(chunks) == c.sent && l.outbuf == [] {
      assert c.sent + [] == c.sent;
      FramingRoundTrip(c.queued, chunks);
    }
  }

  /** A client that has read everything from a session whose command was reported to have
      ended stops. */
  lemma ClientStops(up: bool, cbs: seq<Callback>, chunks: seq<bytes>)
    requires Run(up, cbs).channel.Some? && Ended(Run(up, cbs))
    requires Run(up, cbs).channel.value.queued != []
    requires Flatten(chunks) == Run(up, cbs).channel.value.sent
    ensures !ReceiveAll(FRESH_CLIENT, chunks).running
    ensures Run(up, cbs).channel.value.disconnects > 0
  {
    hide Run, ReceiveAll, Flatten, Printed, HasEnd, Invariant, EncodeAll, AllEncodable, AllAcceptable;
    ServerToClient(up, cbs, chunks);
    RunInvariant(up, cbs);
    EndedHasEnd(Run(up, cbs));
  }

  lemma EndedHasEnd(l: Link)
    requires Sessions.Invariant(l) && l.channel.Some? && Ended(l) && l.channel.value.queued != []
    ensures HasEnd(l.channel.value.queued) && l.channel.value.disconnects > 0
  {
    hide ServerFrame, EncodeAll, Aligned;
    var q := l.channel.value.queued;
    assert q[|q| - 1].kind == ENDOFFILE;
  }

  // ---------------------------------------------------------- null channel

  lemma DisconnectKills(l: Link, u: bool)
    requires Sane(l) && l.channel.Some? && l.process.Some?
    ensures Next(l, Disconnected(u)).channel.None? && Next(l, Disconnected(u)).process.Some?
  {
  }

  /** Runs that lead to the use of a null channel: a command of which the client is gone exits
      by itself before the kill reaches it, or the channel fails when its output or its exit
      code is sent. */
  lemma NullChannelRun(f: Frame, stale: byte, accepts: bool, up: bool, u: bool,
                       code: int64, signal: int, second: Outcome)
    requires Acceptable(Server, f) && signal != SIGTERM
    ensures var start := [Data(Encode(f), stale, accepts, up)];
            var l, gone := Run(true, start), Run(true, start + [Disconnected(u)]);
      && l.process.Some? && gone.process.Some?
      && (forall first: Outcome :: OnExitChecked(gone, code, signal, first, second) == None)
      && OnExitChecked(l, code, signal, Failed(u), second) == None
      && SendChecked(l, Frame(STDOUT, [65]), Failed(u)) == None
  {
    var start := [Data(Encode(f), stale, accepts, up)];
    var l, gone := Run(true, start), Run(true, start + [Disconnected(u)]);
    FirstCommand(f, stale, accepts, up);
    RunSnoc(true, start, Disconnected(u));
    DisconnectKills(l, u);
    hide *;
    forall first: Outcome
      ensures OnExitChecked(gone, code, signal, first, second) == None
    {
      ExitSafeIff(gone, code, signal, first, second);
    }
    ExitSafeIff(l, code, signal, Failed(u), second);
    SendSafeIff(l, Frame(STDOUT, [65]), Failed(u));
  }
}
