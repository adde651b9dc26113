/** Whole runs of the S3TP server: any interleaving of the callbacks of the S3TP library, of
    the process and of the timer. */
module Sessions {
  import opened Framing
  import opened Processes
  import opened Links

  datatype Callback =
    | Data(chunk: bytes, stale: byte, accepts: bool, up: bool)
    | Output(err: bool, data: bytes, accepts: bool)
    | ProcessExit(code: int64, signal: int, first: bool, second: Outcome)
    | BufferFull
    | BufferEmpty(outcome: Outcome)
    | Disconnected(up: bool)
    | TimerFired(up: bool)

  /** Which callbacks can arrive. The process is polled for output only while reading, exits
      once, and a process that HORST killed dies of SIGTERM. */
  predicate Enabled(l: Link, cb: Callback) {
    match cb
    case Output(_, data, _) =>
      l.process.Some? && l.process.value.open && l.process.value.reading && 0 < |data| < 0x1_0000_0000
    case ProcessExit(_, signal, _, _) =>
      l.process.Some? && l.process.value.open && (l.process.value.killed ==> signal == SIGTERM)
    case TimerFired(_) => l.timer != Idle
    case _ => l.channel.Some?
  }

  /** A process that outlives its channel has been killed. */
  predicate Sane(l: Link) {
    l.channel.None? && l.process.Some? ==> l.process.value.killed
  }

  function Next(l: Link, cb: Callback): (r: Link)
    requires Sane(l)
    ensures Sane(r)
  {
    if !Enabled(l, cb) then l else
      match cb
      case Data(chunk, stale, accepts, up) => OnData(l, chunk, stale, accepts, up)
      case Output(err, data, accepts) => Send(l, Frame(if err then STDERR else STDOUT, data), accepts)
      case ProcessExit(code, signal, first, second) => OnExit(l, code, signal, first, second)
      case BufferFull => OutputStopped(l)
      case BufferEmpty(outcome) => OnBufferEmpty(l, outcome)
      case Disconnected(up) => Close(l, up)
      case TimerFired(up) => TimerFires(l, up)
  }

  function Run(up: bool, cbs: seq<Callback>): (r: Link)
    ensures Sane(r)
    decreases |cbs|
  {
    if cbs == [] then Reconnect(UNSTARTED, up)
    else Next(Run(up, cbs[..|cbs| - 1]), cbs[|cbs| - 1])
  }

  lemma RunSnoc(up: bool, cbs: seq<Callback>, cb: Callback)
    ensures Run(up, cbs + [cb]) == Next(Run(up, cbs), cb)
  {
    assert (cbs + [cb])[..|cbs|] == cbs;
  }

  // ----------------------------------------------------------- invariants

  /** Either a channel is live or the timer is pending, never both and never none. The timer
      waits for a killed process exactly if there is one. A process whose exit was seen has no
      input any more. */
  predicate Alive(l: Link) {
    && (l.channel.Some? <==> l.timer == Idle)
    && (l.timer == KillWait <==> l.channel.None? && l.process.Some?)
    && (l.process.Some? ==> (l.process.value.killed <==> l.channel.None?))
    && (l.process.Some? && l.process.value.hasIn ==> l.process.value.open)
  }

  /** Frame alignment of the receiver. */
  predicate Aligned(l: Link) {
    l.channel.Some? ==>
      var c := l.channel.value;
      && AllAcceptable(Server, c.consumed)
      && c.received == EncodeAll(c.consumed) + l.buf
      && (l.expected != 0 ==> |l.buf| >= HEADERSIZE && l.expected == LengthOf(l.buf) && !Complete(l.buf))
  }

  /** A frame HORST may send: a command started, output, or the end with an exit code. */
  ghost predicate ServerFrame(f: Frame) {
    || f == Frame(STARTED, [])
    || (f.kind in {STDOUT, STDERR} && 0 < |f.payload| < 0x1_0000_0000)
    || (f.kind == ENDOFFILE && exists code: int64 :: f.payload == ExitText(code))
  }

  /** Is position `i` the beginning, or right after the end of a command? */
  predicate BetweenCommands(fs: seq<Frame>, i: nat)
    requires i <= |fs|
  {
    i == 0 || fs[i - 1].kind == ENDOFFILE
  }

  /** STARTED (STDOUT | STDERR)* ENDOFFILE, over and over, the last one maybe unfinished:
      a command starts exactly at the beginning and after each end. */
  ghost predicate Grammatical(fs: seq<Frame>, running: bool) {
    && (forall i :: 0 <= i < |fs| ==> ServerFrame(fs[i]))
    && (forall i :: 0 <= i < |fs| ==> (fs[i].kind == STARTED <==> BetweenCommands(fs, i)))
    && (running <==> !BetweenCommands(fs, |fs|))
  }

  /** Nothing queued is lost, repeated or reordered by the output buffer. */
  ghost predicate Faithful(l: Link) {
    l.channel.Some? ==>
      var c := l.channel.value;
      && Grammatical(c.queued, l.process.Some?)
      && AllEncodable(c.queued)
      && c.sent + l.outbuf == EncodeAll(c.queued)
  }

  /** A session whose command has ended and was reported, and whose output was all accepted,
      is soft-closed. A command ended by SIGTERM is not reported and leaves its process behind. */
  predicate HungUp(l: Link) {
    l.channel.Some? && l.process.None? && l.channel.value.queued != [] && l.outbuf == []
    ==> l.channel.value.disconnects > 0
  }

  /** Back-pressure: with output waiting the process is not polled for more, except right
      after its start, when the server begins to read whether or not the channel is full. */
  predicate Throttled(l: Link) {
    l.channel.Some? && l.process.Some? && l.process.value.reading && l.outbuf != []
    ==> l.channel.value.queued != []
        && l.channel.value.queued[|l.channel.value.queued| - 1].kind == STARTED
  }

  /** The sending half of the invariant. */
  ghost predicate OutSide(l: Link) {
    Alive(l) && Faithful(l) && HungUp(l) && Throttled(l)
  }

  ghost predicate Invariant(l: Link) {
    OutSide(l) && Aligned(l)
  }

  // -------------------------------------------------------------- sending

  lemma FrameEncodable(f: Frame)
    requires ServerFrame(f)
    ensures Encodable(f) && Acceptable(Client, f) && !(f.payload == [] && f.kind == NONE)
  {
  }

  lemma QueueEncodes(queued: seq<Frame>, f: Frame)
    requires AllEncodable(queued) && Encodable(f)
    ensures AllEncodable(queued + [f])
    ensures EncodeAll(queued + [f]) == EncodeAll(queued) + Encode(f)
  {
    hide Encode;
    EncodeAllConcat(queued, [f]);
    assert EncodeAll([f]) == Encode(f) + [] == Encode(f);
  }

  lemma GrammarGrows(fs: seq<Frame>, running: bool, f: Frame)
    requires Grammatical(fs, running) && ServerFrame(f)
    requires f.kind == STARTED <==> !running
    ensures Grammatical(fs + [f], f.kind != ENDOFFILE)
  {
    hide ServerFrame;
    var gs := fs + [f];
    forall i | 0 <= i < |gs|
      ensures gs[i].kind == STARTED <==> BetweenCommands(gs, i)
    {
      assert BetweenCommands(gs, i) <==> BetweenCommands(fs, i);
      assert i < |fs| ==> gs[i] == fs[i];
    }
  }

  /** Sending a frame that fits the grammar queues it, keeps the output faithful, and leaves
      the rest of the server alone. */
  lemma SendFaithful(l: Link, f: Frame, accepts: bool)
    requires l.channel.Some? && l.process.Some? && ServerFrame(f)
    requires var c := l.channel.value;
             AllEncodable(c.queued) && c.sent + l.outbuf == EncodeAll(c.queued)
    ensures Encodable(f)
    ensures var r := Send(l, f, accepts);
      && r.channel.Some? && r.channel.value.queued == l.channel.value.queued + [f]
      && AllEncodable(r.channel.value.queued)
      && r.channel.value.sent + r.outbuf == EncodeAll(r.channel.value.queued)
      && (r.outbuf == [] <==> accepts)
      && r.process == (if accepts then l.process else OutputStopped(l).process)
      && r.channel.value.(queued := [], sent := []) == l.channel.value.(queued := [], sent := [])
      && r.(channel := None, outbuf := [], process := None) == l.(channel := None, outbuf := [], process := None)
  {
    FrameEncodable(f);
    var c := l.channel.value;
    QueueEncodes(c.queued, f);
    hide Encode, ServerFrame, EncodeAll;
    assert c.sent + (l.outbuf + Encode(f)) == (c.sent + l.outbuf) + Encode(f);
  }

  // ------------------------------------------------- what each callback keeps

  lemma ReconnectKeeps(l: Link, up: bool)
    requires l.channel.None? && l.timer == Idle
    requires l.process.Some? && l.process.value.hasIn ==> l.process.value.open
    ensures Invariant(Reconnect(l, up))
  {
    assert [] + [] == EncodeAll([]);
  }

  lemma CloseKeeps(l: Link, up: bool)
    requires Invariant(l) && l.channel.Some?
    ensures Invariant(Close(l, up))
  {
    ReconnectKeeps(l.(channel := None), up);
  }

  lemma TimerKeeps(l: Link, up: bool)
    requires Invariant(l) && l.timer != Idle
    ensures Invariant(TimerFires(l, up))
  {
    hide Reconnect;
    ReconnectKeeps(if l.timer.KillWait? then l.(timer := Idle, process := None) else l.(timer := Idle), up);
  }

  lemma OutputKeeps(l: Link, err: bool, data: bytes, accepts: bool)
    requires Invariant(l) && l.process.Some? && 0 < |data| < 0x1_0000_0000
    ensures Invariant(Send(l, Frame(if err then STDERR else STDOUT, data), accepts))
  {
    if l.channel.Some? {
      var f := Frame(if err then STDERR else STDOUT, data);
      SendFaithful(l, f, accepts);
      GrammarGrows(l.channel.value.queued, true, f);
      hide Send, EncodeAll, Grammatical, AllEncodable;
    }
  }

  lemma BufferEmptyKeeps(l: Link, outcome: Outcome)
    requires Invariant(l) && l.channel.Some?
    ensures Invariant(OnBufferEmpty(l, outcome))
  {
    hide EncodeAll, Grammatical, Reconnect;
    var c := l.channel.value;
    assert (c.sent + l.outbuf) + [] == c.sent + l.outbuf;
    if outcome.Failed? {
      ReconnectKeeps(OutputStarted(l).(channel := None), outcome.up);
    }
  }

  lemma ExitKeeps(l: Link, code: int64, signal: int, first: bool, second: Outcome)
    requires Invariant(l) && l.process.Some? && (l.channel.None? ==> signal == SIGTERM)
    ensures Invariant(OnExit(l, code, signal, first, second))
  {
    if signal != SIGTERM {
      var f := Frame(ENDOFFILE, ExitText(code));
      var l1 := l.(process := Some(l.process.value.Exited()));
      assert ServerFrame(f);
      SendFaithful(l1, f, first);
      GrammarGrows(l.channel.value.queued, true, f);
      hide Send, EncodeAll, Grammatical, ExitText, ServerFrame, AllEncodable, Reconnect;
      var l2 := Send(l1, f, first).(process := None);
      var c := l2.channel.value;
      assert (c.sent + l2.outbuf) + [] == c.sent + l2.outbuf;
      if second.Failed? {
        ReconnectKeeps(l2.(channel := None), second.up);
      }
    }
  }

  // ------------------------------------------------------------- receiving

  /** The three things a chunk can lead to, by what is then at the front of the buffer. At
      most one frame is consumed, however many are there. */
  lemma OnDataCases(l: Link, chunk: bytes, stale: byte, accepts: bool, up: bool)
    requires l.channel.Some? && Aligned(l)
    ensures var b := l.buf + chunk;
            var l1 := Buffered(l, chunk);
            var kind := if l.expected == 0 && |b| >= HEADERSIZE then b[4] else stale;
            var r := OnData(l, chunk, stale, accepts, up);
      && (RefusedFront(Server, b) ==> r == Close(l1, up))
      && (Complete(b) && !RefusedFront(Server, b) ==>
            r == Consume(Deliver(l1.(expected := LengthOf(b)), kind, FrontFrame(b).payload, accepts)))
      && (!Complete(b) && !RefusedFront(Server, b) ==>
            r == if |b| < HEADERSIZE then l1 else l1.(expected := LengthOf(b)))
  {
    if l.expected != 0 {
      HeaderKept(l, chunk);
    }
    hide Aligned, LengthOf, Close, Deliver, Encode;
  }

  /** The length expected is the one at the front of the buffer. */
  lemma HeaderKept(l: Link, chunk: bytes)
    requires l.channel.Some? && Aligned(l) && l.expected != 0
    ensures |l.buf| >= HEADERSIZE && LengthOf(l.buf + chunk) == l.expected
  {
    hide EncodeAll, AllAcceptable;
  }

  /** Received bytes are no concern of the sending half. */
  lemma InputOutSide(l: Link, chunk: bytes, n: uint32)
    requires l.channel.Some? && OutSide(l)
    ensures OutSide(Buffered(l, chunk).(expected := n)) && OutSide(Buffered(l, chunk))
  {
    hide Grammatical, EncodeAll;
  }

  lemma ConsumeOutSide(l: Link)
    requires l.channel.Some? && OutSide(l) && |l.buf| >= HEADERSIZE + l.expected
    ensures OutSide(Consume(l))
  {
    hide Grammatical, EncodeAll;
  }

  lemma DeliverKeeps(l: Link, kind: byte, payload: bytes, accepts: bool)
    requires l.channel.Some? && OutSide(l)
    ensures var r := Deliver(l, kind, payload, accepts);
      && OutSide(r) && r.channel.Some? && r.buf == l.buf && r.expected == l.expected
      && r.channel.value.received == l.channel.value.received
      && r.channel.value.consumed == l.channel.value.consumed
      && r.sessions == l.sessions && r.channel.value.disconnects == l.channel.value.disconnects
      && r.process.Some?
      && (l.process.None? ==> r.process == Some(Spawned(payload).(reading := true)))
  {
    if l.process.None? {
      var f := Frame(STARTED, []);
      var l1 := l.(process := Some(Spawned(payload)));
      SendFaithful(l1, f, accepts);
      GrammarGrows(l.channel.value.queued, false, f);
    }
    hide Send, EncodeAll, Grammatical, AllEncodable;
  }

  lemma ConsumeAligns(l: Link, chunk: bytes, l1: Link)
    requires l.channel.Some? && Aligned(l) && l1.channel.Some?
    requires Complete(l1.buf) && !RefusedFront(Server, l1.buf) && l1.expected == LengthOf(l1.buf)
    requires l1.buf == l.buf + chunk
    requires l1.channel.value.received == l.channel.value.received + chunk
    requires l1.channel.value.consumed == l.channel.value.consumed
    ensures Aligned(Consume(l1))
    ensures Consume(l1).channel.value.consumed == l.channel.value.consumed + [FrontFrame(l1.buf)]
    ensures Consume(l1).buf == AfterFront(l1.buf)
  {
    FrontConsumed(l.channel.value.consumed, l.buf, chunk);
    hide Encode, EncodeAll, LengthOf, AllAcceptable, RefusedFront;
  }

  lemma FrontConsumed(consumed: seq<Frame>, buf: bytes, chunk: bytes)
    requires AllAcceptable(Server, consumed)
    requires Complete(buf + chunk) && !RefusedFront(Server, buf + chunk)
    ensures var f := FrontFrame(buf + chunk);
      && AllAcceptable(Server, consumed + [f])
      && (EncodeAll(consumed) + buf) + chunk == EncodeAll(consumed + [f]) + AfterFront(buf + chunk)
  {
    var b := buf + chunk;
    var f := FrontFrame(b);
    FrontAndRest(b);
    FrontAcceptable(Server, b);
    QueueEncodes(consumed, f);
    hide Encode, EncodeAll, LengthOf, Acceptable, Complete, RefusedFront, FrontFrame, AfterFront;
    assert (EncodeAll(consumed) + buf) + chunk == EncodeAll(consumed) + b;
    assert EncodeAll(consumed) + (Encode(f) + AfterFront(b)) == (EncodeAll(consumed) + Encode(f)) + AfterFront(b);
  }

  lemma BufferedAligns(l: Link, chunk: bytes)
    requires l.channel.Some? && Aligned(l)
    requires var b := l.buf + chunk; !Complete(b) && !RefusedFront(Server, b)
    ensures var b := l.buf + chunk;
            var l1 := Buffered(l, chunk);
            Aligned(if |b| < HEADERSIZE then l1 else l1.(expected := LengthOf(b)))
  {
    var c := l.channel.value;
    hide Encode, EncodeAll, AllAcceptable;
    assert (EncodeAll(c.consumed) + l.buf) + chunk == EncodeAll(c.consumed) + (l.buf + chunk);
  }

  lemma DataKeeps(l: Link, chunk: bytes, stale: byte, accepts: bool, up: bool)
    requires Invariant(l) && l.channel.Some?
    ensures Invariant(OnData(l, chunk, stale, accepts, up))
  {
    var b := l.buf + chunk;
    var l1 := Buffered(l, chunk);
    OnDataCases(l, chunk, stale, accepts, up);
    InputOutSide(l, chunk, if |b| >= HEADERSIZE then LengthOf(b) else 0);
    if RefusedFront(Server, b) {
      assert l.timer == Idle;
      hide OutSide, OnData, Aligned;
      ReconnectKeeps(l1.(channel := None), up);
    } else if Complete(b) {
      hide OutSide, OnData, LengthOf, Aligned, RefusedFront, Complete, Deliver;
      var l2 := l1.(expected := LengthOf(b));
      var kind := if l.expected == 0 then b[4] else stale;
      DeliverKeeps(l2, kind, FrontFrame(b).payload, accepts);
      ConsumeAligns(l, chunk, Deliver(l2, kind, FrontFrame(b).payload, accepts));
      ConsumeOutSide(Deliver(l2, kind, FrontFrame(b).payload, accepts));
    } else {
      hide OutSide, OnData, Aligned;
      BufferedAligns(l, chunk);
    }
  }

  // ------------------------------------------------------------------ runs

  lemma StepInvariant(l: Link, cb: Callback)
    requires Sane(l) && Invariant(l)
    ensures Invariant(Next(l, cb))
  {
    hide Invariant, OnData, Send, OnExit, OnBufferEmpty, Close, TimerFires;
    if Enabled(l, cb) {
      match cb
      case Data(chunk, stale, accepts, up) => DataKeeps(l, chunk, stale, accepts, up);
      case Output(err, data, accepts) => OutputKeeps(l, err, data, accepts);
      case ProcessExit(code, signal, first, second) => ExitKeeps(l, code, signal, first, second);
      case BufferFull => FullKeeps(l);
      case BufferEmpty(outcome) => BufferEmptyKeeps(l, outcome);
      case Disconnected(up) => CloseKeeps(l, up);
      case TimerFired(up) => TimerKeeps(l, up);
    }
  }

  lemma FullKeeps(l: Link)
    requires Invariant(l)
    ensures Invariant(OutputStopped(l))
  {
    hide Grammatical, EncodeAll, AllAcceptable, Complete;
  }

  /** The invariant holds in every run, from the start on. */
  lemma {:induction false} RunInvariant(up: bool, cbs: seq<Callback>)
    ensures Invariant(Run(up, cbs))
    decreases |cbs|
  {
    hide Invariant, Next;
    if cbs == [] {
      ReconnectKeeps(UNSTARTED, up);
    } else {
      RunInvariant(up, cbs[..|cbs| - 1]);
      StepInvariant(Run(up, cbs[..|cbs| - 1]), cbs[|cbs| - 1]);
    }
  }

  // -------------------------------------------------------------- history

  /** Callback `i` of the run starts something, and all later ones let it stay. */
  predicate Since(up: bool, cbs: seq<Callback>,
                  starts: (Link, Callback) -> bool, stays: (Link, Callback) -> bool, i: nat)
    requires i < |cbs|
  {
    && starts(Run(up, cbs[..i]), cbs[i])
    && forall j :: i < j < |cbs| ==> stays(Run(up, cbs[..j]), cbs[j])
  }

  /** What one callback does to `holds`, by its guard: it starts, or it stays. */
  predicate Stepwise(holds: Link -> bool, starts: (Link, Callback) -> bool,
                     stays: (Link, Callback) -> bool, l: Link, cb: Callback)
    requires Sane(l)
  {
    && (holds(Next(l, cb)) <==> if holds(l) then stays(l, cb) else starts(l, cb))
    && (starts(l, cb) ==> !holds(l))
  }

  lemma SinceSnoc(up: bool, init: seq<Callback>, cb: Callback,
                  starts: (Link, Callback) -> bool, stays: (Link, Callback) -> bool, i: nat)
    requires i < |init|
    ensures Since(up, init + [cb], starts, stays, i)
            <==> Since(up, init, starts, stays, i) && stays(Run(up, init), cb)
  {
    hide Run;
    var cbs := init + [cb];
    assert cbs[..|init|] == init && cbs[|init|] == cb;
    forall j | 0 <= j < |init|
      ensures cbs[..j] == init[..j] && cbs[j] == init[j]
    {
    }
  }

  lemma SinceLast(up: bool, init: seq<Callback>, cb: Callback,
                  starts: (Link, Callback) -> bool, stays: (Link, Callback) -> bool)
    ensures Since(up, init + [cb], starts, stays, |init|) <==> starts(Run(up, init), cb)
  {
    hide Run;
    assert (init + [cb])[..|init|] == init;
  }

  /** A property that single callbacks start and stop holds at the end of a run if and only if
      some callback of the run started it and no later one stopped it. */
  lemma {:induction false} HoldsIffSince(up: bool, cbs: seq<Callback>, holds: Link -> bool,
                                         starts: (Link, Callback) -> bool, stays: (Link, Callback) -> bool)
    requires !holds(Run(up, []))
    requires forall k :: 0 <= k < |cbs| ==> Stepwise(holds, starts, stays, Run(up, cbs[..k]), cbs[k])
    ensures holds(Run(up, cbs)) <==> exists i :: 0 <= i < |cbs| && Since(up, cbs, starts, stays, i)
    decreases |cbs|
  {
    hide Run, Next, Since;
    if cbs != [] {
      var n := |cbs| - 1;
      var init, cb := cbs[..n], cbs[n];
      assert cbs == init + [cb];
      RunSnoc(up, init, cb);
      assert Stepwise(holds, starts, stays, Run(up, init), cb);
      forall k | 0 <= k < n
        ensures Stepwise(holds, starts, stays, Run(up, init[..k]), init[k])
      {
        assert init[..k] == cbs[..k] && init[k] == cbs[k];
      }
      HoldsIffSince(up, init, holds, starts, stays);
      forall i | 0 <= i < n
        ensures Since(up, cbs, starts, stays, i)
                <==> Since(up, init, starts, stays, i) && stays(Run(up, init), cb)
      {
        SinceSnoc(up, init, cb, starts, stays, i);
      }
      SinceLast(up, init, cb, starts, stays);
      if holds(Run(up, init)) && stays(Run(up, init), cb) {
        var i :| 0 <= i < n && Since(up, init, starts, stays, i);
        assert Since(up, cbs, starts, stays, i);
      }
    }
  }

  // --------------------------------------------------------- first command

  lemma CommandDelivered(l: Link, kind: byte, payload: bytes, accepts: bool)
    requires l.channel.Some? && l.process.None? && l.outbuf == []
    ensures var started := Frame(STARTED, []);
            var c := l.channel.value;
            Deliver(l, kind, payload, accepts)
            == l.(channel := Some(c.(queued := c.queued + [started],
                                     sent := if accepts then c.sent + Encode(started) else c.sent)),
                  outbuf := if accepts then [] else Encode(started),
                  process := Some(Spawned(payload).(reading := true)))
  {
    hide Encode;
    assert [] + Encode(Frame(STARTED, [])) == Encode(Frame(STARTED, []));
  }

  /** The first command of a session, in one chunk. */
  lemma FirstCommand(f: Frame, stale: byte, accepts: bool, up: bool)
    requires Acceptable(Server, f)
    ensures var l := Run(true, [Data(Encode(f), stale, accepts, up)]);
      && l.channel == Some(Channel(Encode(f), [f], [Frame(STARTED, [])],
                                   if accepts then Encode(Frame(STARTED, [])) else [], 0))
      && l.process == Some(Spawned(f.payload).(reading := true))
      && l.buf == [] && l.expected == 0 && l.timer == Idle
      && l.outbuf == if accepts then [] else Encode(Frame(STARTED, []))
  {
    var cb := Data(Encode(f), stale, accepts, up);
    RunSnoc(true, [], cb);
    assert [] + [cb] == [cb];
    EmptyRun();
    hide *;
    FirstChunk(f, stale, accepts, up);
  }

  lemma EmptyRun()
    ensures Run(true, []) == UNSTARTED.(channel := Some(NEW_CHANNEL), sessions := 1)
    ensures forall cb: Callback :: cb.Data? ==>
              Next(Run(true, []), cb) == OnData(Run(true, []), cb.chunk, cb.stale, cb.accepts, cb.up)
    ensures Aligned(Run(true, []))
  {
    RunInvariant(true, []);
  }

  lemma FirstChunk(f: Frame, stale: byte, accepts: bool, up: bool)
    requires Acceptable(Server, f)
    requires Aligned(UNSTARTED.(channel := Some(NEW_CHANNEL), sessions := 1))
    ensures var l := OnData(UNSTARTED.(channel := Some(NEW_CHANNEL), sessions := 1),
                            Encode(f), stale, accepts, up);
      && l.channel == Some(Channel(Encode(f), [f], [Frame(STARTED, [])],
                                   if accepts then Encode(Frame(STARTED, [])) else [], 0))
      && l.process == Some(Spawned(f.payload).(reading := true))
      && l.buf == [] && l.expected == 0 && l.timer == Idle
      && l.outbuf == if accepts then [] else Encode(Frame(STARTED, []))
  {
    var start := UNSTARTED.(channel := Some(NEW_CHANNEL), sessions := 1);
    WholeFrame(f);
    OnDataCases(start, Encode(f), stale, accepts, up);
    hide Encode, OnData, Deliver, Consume, LengthOf, Complete, RefusedFront, FrontFrame, EncodeAll;
    assert [] + Encode(f) == Encode(f);
    var l1 := Buffered(start, Encode(f)).(expected := |f.payload|);
    CommandDelivered(l1, f.kind, f.payload, accepts);
    ConsumeWhole(Deliver(l1, f.kind, f.payload, accepts), f);
    assert [] + [f] == [f] && [] + [Frame(STARTED, [])] == [Frame(STARTED, [])];
    assert [] + Encode(Frame(STARTED, [])) == Encode(Frame(STARTED, []));
  }

  lemma ConsumeWhole(l: Link, f: Frame)
    requires Acceptable(Server, f)
    requires l.channel.Some? && l.buf == Encode(f) && l.expected == |f.payload|
    ensures var c := l.channel.value;
            Consume(l) == l.(channel := Some(c.(consumed := c.consumed + [f])), buf := [], expected := 0)
  {
    WholeFrame(f);
    hide Encode;
    assert l.buf[HEADERSIZE..HEADERSIZE + l.expected] == l.buf[HEADERSIZE..];
  }

  lemma WholeFrame(f: Frame)
    requires Acceptable(Server, f)
    ensures var b := Encode(f);
      && Complete(b) && !RefusedFront(Server, b) && LengthOf(b) == |f.payload| && b[4] == f.kind
      && |b| == HEADERSIZE + |f.payload| && b[HEADERSIZE..] == f.payload
      && FrontFrame(b) == f
  {
    assert Encode(f) + [] == Encode(f);
    FrontOfEncoded(f, []);
  }
}
