/** What each callback does to the session, field by field, told by what it finds: when the
    session ends, what is queued, what stays unsent, and whether output is polled. */
module Effects {
  import opened Framing
  import opened Processes
  import opened Links
  import opened Sessions
  import opened SessionGuarantees
  import InputFidelity

  // ----------------------------------------------------------- what is found

  predicate Starts(l: Link, cb: Callback) {
    InputFidelity.Starts(l, cb)
  }

  /** The running command has output, and the server is polling for it. */
  predicate HasOutput(l: Link, cb: Callback) {
    cb.Output? && l.process.Some? && l.process.value.open && l.process.value.reading
    && 0 < |cb.data| < 0x1_0000_0000
  }

  /** The command ends other than by SIGTERM, signal 15, before the server tried to kill it. */
  predicate Finishes(l: Link, cb: Callback) {
    cb.ProcessExit? && l.process.Some? && l.process.value.open && !l.process.value.killed
    && cb.signal != 15
  }

  /** The callback makes the server drop the channel. */
  predicate DropsChannel(l: Link, cb: Callback) {
    || (cb.Data? && RefusedFront(Server, l.buf + cb.chunk))
    || cb.Disconnected?
    || (cb.BufferEmpty? && cb.outcome.Failed? && l.outbuf != [])
    || (Finishes(l, cb) && !cb.first && cb.second.Failed?)
  }

  /** Whether the reconnect after that succeeds. */
  predicate ComesUp(cb: Callback) {
    match cb
    case Data(_, _, _, up) => up
    case Disconnected(up) => up
    case BufferEmpty(outcome) => outcome.Failed? && outcome.up
    case ProcessExit(_, _, _, second) => second.Failed? && second.up
    case _ => false
  }

  // ---------------------------------------------------------- what it does

  /** The frames the callback queues, by the numbers of their types on the wire. */
  function Queued(l: Link, cb: Callback): seq<Frame> {
    if Starts(l, cb) then [Frame(8, [])]
    else if HasOutput(l, cb) then [Frame(if cb.err then 4 else 2, cb.data)]
    else if Finishes(l, cb) then [Frame(16, ExitText(cb.code))]
    else []
  }

  /** Nothing is left to be sent after the callback. */
  predicate SendsAll(l: Link, cb: Callback) {
    if Starts(l, cb) || HasOutput(l, cb) then cb.accepts
    else if Finishes(l, cb) then cb.first || cb.second.Taken?
    else l.outbuf == [] || (cb.BufferEmpty? && cb.outcome.Taken?)
  }

  /** The process is there after the callback. */
  predicate KeepsProcess(l: Link, cb: Callback) {
    Starts(l, cb) || (l.process.Some? && !Finishes(l, cb))
  }

  /** The output of the process is polled after the callback. */
  predicate Polls(l: Link, cb: Callback) {
    if Starts(l, cb) then true
    else
      match cb
      case Output(_, _, accepts) => Polled(l) && (HasOutput(l, cb) ==> accepts)
      case BufferFull => false
      case BufferEmpty(outcome) => l.outbuf == [] || outcome.Taken?
      case _ => Polled(l)
  }

  predicate Polled(l: Link) {
    l.process.Some? && l.process.value.reading
  }

  /** What becomes of a server that drops its channel: a process is killed and waited for,
      otherwise a new session begins, or a retry is pending. */
  predicate Dropped(l: Link, cb: Callback, r: Link) {
    if l.process.Some? && !Finishes(l, cb) then
      && r.channel.None? && r.timer == KillWait && r.sessions == l.sessions
      && r.process.Some? && r.process.value.killed
    else if ComesUp(cb) then FreshSession(r) && r.timer == Idle && r.sessions == l.sessions + 1
    else r.channel.None? && r.process.None? && r.timer == Retry && r.sessions == l.sessions
  }

  /** The whole account of a callback on a live channel. */
  predicate Accounted(l: Link, cb: Callback, r: Link)
    requires l.channel.Some?
  {
    if DropsChannel(l, cb) then Dropped(l, cb, r)
    else
      && SameSession(l, r)
      && r.channel.value.queued == l.channel.value.queued + Queued(l, cb)
      && (r.outbuf == [] <==> SendsAll(l, cb))
      && (r.process.Some? <==> KeepsProcess(l, cb))
      && (r.process.Some? ==> (r.process.value.reading <==> Polls(l, cb)))
  }

  lemma DataEffect(l: Link, cb: Callback)
    requires Sane(l) && Sessions.Invariant(l) && l.channel.Some? && cb.Data?
    ensures Accounted(l, cb, Next(l, cb))
  {
    hide *;
    var b := l.buf + cb.chunk;
    if RefusedFront(Server, b) {
      RefusedEffect(l, cb);
    } else if !Complete(b) {
      WaitEffect(l, cb);
    } else {
      FrameEffect(l, cb);
    }
  }

  lemma NextData(l: Link, cb: Callback)
    requires Sane(l) && l.channel.Some? && cb.Data?
    ensures Next(l, cb) == OnData(l, cb.chunk, cb.stale, cb.accepts, cb.up)
  {
    hide OnData;
  }

  /** What a chunk does to the sending half of a session that it does not end. */
  predicate Chunked(l: Link, r: Link, starts: bool, accepts: bool)
    requires l.channel.Some?
  {
    && SameSession(l, r)
    && r.channel.value.queued == l.channel.value.queued + (if starts then [Frame(8, [])] else [])
    && (r.outbuf == [] <==> if starts then accepts else l.outbuf == [])
    && (r.process.Some? <==> starts || l.process.Some?)
    && (r.process.Some? ==> (r.process.value.reading <==> starts || Polled(l)))
  }

  lemma ChunkAccounted(l: Link, cb: Callback, r: Link)
    requires l.channel.Some? && cb.Data? && !RefusedFront(Server, l.buf + cb.chunk)
    requires Chunked(l, r, Starts(l, cb), cb.accepts)
    ensures Accounted(l, cb, r)
  {
    hide RefusedFront, Complete;
  }

  lemma WaitEffect(l: Link, cb: Callback)
    requires Sane(l) && Sessions.Invariant(l) && l.channel.Some? && cb.Data?
    requires !RefusedFront(Server, l.buf + cb.chunk) && !Complete(l.buf + cb.chunk)
    ensures Accounted(l, cb, Next(l, cb))
  {
    hide *;
    NextData(l, cb);
    WaitChunked(l, cb);
    ChunkAccounted(l, cb, Next(l, cb));
  }

  lemma WaitChunked(l: Link, cb: Callback)
    requires Sessions.Invariant(l) && l.channel.Some? && cb.Data?
    requires !RefusedFront(Server, l.buf + cb.chunk) && !Complete(l.buf + cb.chunk)
    ensures Chunked(l, OnData(l, cb.chunk, cb.stale, cb.accepts, cb.up), Starts(l, cb), cb.accepts)
  {
    OnDataCases(l, cb.chunk, cb.stale, cb.accepts, cb.up);
    hide OnData, LengthOf, RefusedFront, Complete, Deliver, Consume, OutSide, Aligned;
    assert l.channel.value.queued + [] == l.channel.value.queued;
  }

  lemma RefusedEffect(l: Link, cb: Callback)
    requires Sane(l) && Sessions.Invariant(l) && l.channel.Some? && cb.Data?
    requires RefusedFront(Server, l.buf + cb.chunk)
    ensures Accounted(l, cb, Next(l, cb))
  {
    NextData(l, cb);
    OnDataCases(l, cb.chunk, cb.stale, cb.accepts, cb.up);
    AliveOf(l);
    hide Next, OnData, LengthOf, RefusedFront, Complete, Deliver, Consume, OutSide, Aligned;
  }

  lemma FrameEffect(l: Link, cb: Callback)
    requires Sane(l) && Sessions.Invariant(l) && l.channel.Some? && cb.Data?
    requires Complete(l.buf + cb.chunk) && !RefusedFront(Server, l.buf + cb.chunk)
    ensures Accounted(l, cb, Next(l, cb))
  {
    hide *;
    NextData(l, cb);
    FrameChunked(l, cb);
    ChunkAccounted(l, cb, Next(l, cb));
  }

  lemma FrameChunked(l: Link, cb: Callback)
    requires Sessions.Invariant(l) && l.channel.Some? && cb.Data?
    requires Complete(l.buf + cb.chunk) && !RefusedFront(Server, l.buf + cb.chunk)
    ensures Chunked(l, OnData(l, cb.chunk, cb.stale, cb.accepts, cb.up), Starts(l, cb), cb.accepts)
  {
    var b := l.buf + cb.chunk;
    var kind := if l.expected == 0 then b[4] else cb.stale;
    var l2 := Buffered(l, cb.chunk).(expected := LengthOf(b));
    OnDataCases(l, cb.chunk, cb.stale, cb.accepts, cb.up);
    InputOutSide(l, cb.chunk, LengthOf(b));
    hide OnData, LengthOf, RefusedFront, Complete, Deliver, OutSide, Aligned, FrontFrame;
    DeliverEffect(l2, kind, FrontFrame(b).payload, cb.accepts);
  }

  lemma DeliverEffect(l: Link, kind: byte, payload: bytes, accepts: bool)
    requires l.channel.Some? && OutSide(l)
    ensures Chunked(l, Deliver(l, kind, payload, accepts), l.process.None?, accepts)
  {
    hide Encode, EncodeAll, Grammatical, AllEncodable;
    assert l.channel.value.queued + [] == l.channel.value.queued;
    assert l.outbuf + Encode(Frame(STARTED, [])) != [];
  }

  lemma OutputEffect(l: Link, cb: Callback)
    requires Sane(l) && l.channel.Some? && cb.Output?
    ensures Accounted(l, cb, Next(l, cb))
  {
    hide Encode;
    assert l.channel.value.queued + [] == l.channel.value.queued;
    if HasOutput(l, cb) {
      assert l.outbuf + Encode(Frame(if cb.err then STDERR else STDOUT, cb.data)) != [];
    }
  }

  lemma ExitEffect(l: Link, cb: Callback)
    requires Sane(l) && Alive(l) && l.channel.Some? && cb.ProcessExit?
    ensures Accounted(l, cb, Next(l, cb))
  {
    hide Encode, ExitText;
    assert l.channel.value.queued + [] == l.channel.value.queued;
    if Finishes(l, cb) {
      assert l.outbuf + Encode(Frame(ENDOFFILE, ExitText(cb.code))) != [];
    }
  }

  lemma OtherEffect(l: Link, cb: Callback)
    requires Sane(l) && Alive(l) && l.channel.Some?
    requires cb.BufferFull? || cb.BufferEmpty? || cb.Disconnected? || cb.TimerFired?
    ensures Accounted(l, cb, Next(l, cb))
  {
    assert l.channel.value.queued + [] == l.channel.value.queued;
  }

  /** Every callback on a live channel does exactly what the account says. */
  lemma LiveEffect(l: Link, cb: Callback)
    requires Sane(l) && Sessions.Invariant(l) && l.channel.Some?
    ensures Accounted(l, cb, Next(l, cb))
  {
    hide *;
    AliveOf(l);
    match cb
    case Data(_, _, _, _) => DataEffect(l, cb);
    case Output(_, _, _) => OutputEffect(l, cb);
    case ProcessExit(_, _, _, _) => ExitEffect(l, cb);
    case _ => OtherEffect(l, cb);
  }

  lemma AliveOf(l: Link)
    requires Sessions.Invariant(l)
    ensures Alive(l)
  {
  }

  /** Without a channel only the timer matters. If the reconnect succeeds a new session begins
      at once, even if a killed process was waited for; otherwise a retry is pending. */
  lemma IdleEffect(l: Link, cb: Callback)
    requires Sane(l) && Sessions.Invariant(l) && l.channel.None?
    ensures var r := Next(l, cb);
            if cb == TimerFired(true) then FreshSession(r) && r.timer == Idle && r.sessions == l.sessions + 1
            else if cb == TimerFired(false) then
              r.channel.None? && r.process.None? && r.timer == Retry && r.sessions == l.sessions
            else r.channel.None? && r.timer == l.timer && r.sessions == l.sessions
                 && (r.process.Some? <==> l.process.Some?)
  {
    hide Encode, ExitText;
  }
}
