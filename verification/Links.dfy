/** What the callbacks of the S3TP server do, as functions on values. What the S3TP library,
    libuv and the uninitialised local variable decide comes in as parameters. */
module Links {
  import opened Framing
  import opened Processes

  datatype Option<+T> = None | Some(value: T)

  /** The only timer of the server, and what it was started for. */
  datatype Timer = Idle | KillWait | Retry

  /** A live channel with the traffic it has seen: bytes received, frames consumed from
      them, frames queued by `send`, bytes accepted for sending, and soft-closes. */
  datatype Channel = Channel(
    received: bytes,
    consumed: seq<Frame>,
    queued: seq<Frame>,
    sent: bytes,
    disconnects: nat)

  const NEW_CHANNEL: Channel := Channel([], [], [], [], 0)

  datatype Link = Link(
    channel: Option<Channel>,
    sessions: nat,
    buf: bytes,
    expected: uint32,
    outbuf: bytes,
    process: Option<ProcessView>,
    timer: Timer)

  /** What the channel answers to a buffer: it takes all of it, it is full, or it has failed.
      `up` says whether the reconnect after the failure succeeds. */
  datatype Outcome = Taken | Full | Failed(up: bool)

  const UNSTARTED: Link := Link(None, 0, [], 0, [], None, Idle)

  // ---------------------------------------------------------- exit message

  type int64 = n: int | -0x8000_0000_0000_0000 <= n < 0x8000_0000_0000_0000

  function Digits(n: nat): bytes {
    if n < 10 then [48 + n] else Digits(n / 10) + [48 + n % 10]
  }

  function Power10(k: nat): nat {
    if k == 0 then 1 else 10 * Power10(k - 1)
  }

  lemma {:induction false} DigitsShort(n: nat, k: nat)
    requires n < Power10(k)
    ensures |Digits(n)| <= k + 1
  {
    if n >= 10 {
      DigitsShort(n / 10, k - 1);
    }
  }

  lemma Power10At19()
    ensures Power10(19) == 10_000_000_000_000_000_000
  {
    assert Power10(2) == 100;
    assert Power10(4) == 10_000;
    assert Power10(6) == 1_000_000;
    assert Power10(8) == 100_000_000;
    assert Power10(10) == 10_000_000_000;
    assert Power10(12) == 1_000_000_000_000;
    assert Power10(14) == 100_000_000_000_000;
    assert Power10(16) == 10_000_000_000_000_000;
    assert Power10(18) == 1_000_000_000_000_000_000;
  }

  /** "[exit] N" and a newline, in ASCII. */
  function ExitText(code: int64): (text: bytes)
    ensures 9 <= |text| <= 29
  {
    var magnitude: int := if code < 0 then -(code as int) else code;
    Power10At19();
    DigitsShort(magnitude, 19);
    [91, 101, 120, 105, 116, 93, 32] + (if code < 0 then [45] else []) + Digits(magnitude) + [10]
  }

  // ------------------------------------------------------------ connecting

  /** `up` says whether binding and registering the new channel succeeds. */
  function Reconnect(l: Link, up: bool): Link {
    if l.channel.Some? then l
    else if l.process.Some? then
      l.(process := Some(l.process.value.(killed := true)), timer := KillWait)
    else
      var r := l.(buf := [], expected := 0, outbuf := []);
      if up then r.(channel := Some(NEW_CHANNEL), sessions := r.sessions + 1)
      else r.(timer := Retry)
  }

  function Close(l: Link, up: bool): Link {
    Reconnect(l.(channel := None), up)
  }

  function TimerFires(l: Link, up: bool): Link {
    Reconnect(if l.timer.KillWait? then l.(timer := Idle, process := None) else l.(timer := Idle), up)
  }

  // --------------------------------------------------------------- sending

  /** The soft-close of the channel. */
  function Disconnect(l: Link): Link
    requires l.channel.Some?
  {
    l.(channel := Some(l.channel.value.(disconnects := l.channel.value.disconnects + 1)))
  }

  function OutputStopped(l: Link): Link {
    if l.process.Some? then l.(process := Some(l.process.value.(reading := false))) else l
  }

  function OutputStarted(l: Link): Link {
    if l.process.Some? then l.(process := Some(l.process.value.(reading := true))) else l
  }

  function SendBuf(l: Link, outcome: Outcome): Link
    requires l.channel.Some?
  {
    if l.outbuf == [] then l
    else
      match outcome
      case Full => OutputStopped(l)
      case Failed(up) => Close(l, up)
      case Taken =>
        var c := l.channel.value;
        var r := l.(channel := Some(c.(sent := c.sent + l.outbuf)), outbuf := []);
        if r.process.None? then Disconnect(r) else r
  }

  /** The last part of `send`, on a channel that has not failed: it takes the buffer or it is
      full. A failed one is the business of `SendSafeIff`. */
  function Send(l: Link, f: Frame, accepts: bool): Link
    requires Encodable(f)
  {
    if (f.payload == [] && f.kind == NONE) || l.channel.None? then l
    else
      var c := l.channel.value;
      SendBuf(l.(channel := Some(c.(queued := c.queued + [f])), outbuf := l.outbuf + Encode(f)),
              if accepts then Taken else Full)
  }

  // ------------------------------------------------------------- receiving

  /** Handle the payload of a whole frame: the first one is the command, the others are
      input. `kind` is what the local variable holds, not necessarily the type received. */
  function Deliver(l: Link, kind: byte, payload: bytes, accepts: bool): (r: Link)
    ensures l.channel.Some? ==> r.channel.Some? && r.buf == l.buf && r.expected == l.expected
  {
    if l.process.Some? then
      l.(process := Some(if kind == ENDOFFILE then l.process.value.CloseInput()
                         else l.process.value.Input(payload)))
    else
      OutputStarted(Send(l.(process := Some(Spawned(payload))), Frame(STARTED, []), accepts))
  }

  function Consume(l: Link): Link
    requires l.channel.Some? && |l.buf| >= HEADERSIZE + l.expected
  {
    var c := l.channel.value;
    var f := Frame(l.buf[4], l.buf[HEADERSIZE..HEADERSIZE + l.expected]);
    l.(channel := Some(c.(consumed := c.consumed + [f])),
       buf := l.buf[HEADERSIZE + l.expected..], expected := 0)
  }

  function Buffered(l: Link, chunk: bytes): Link
    requires l.channel.Some?
  {
    var c := l.channel.value;
    l.(buf := l.buf + chunk, channel := Some(c.(received := c.received + chunk)))
  }

  /** `stale` is what the uninitialised `type` happens to hold. */
  function OnData(l: Link, chunk: bytes, stale: byte, accepts: bool, up: bool): Link
    requires l.channel.Some?
  {
    var l1 := Buffered(l, chunk);
    if |l1.buf| < HEADERSIZE then l1
    else
      var kind := if l1.expected == 0 then l1.buf[4] else stale;
      var l2 := if l1.expected == 0 then l1.(expected := LengthOf(l1.buf)) else l1;
      if l2.expected == 0 then Close(l2, up)
      else if |l2.buf| < l2.expected + HEADERSIZE then l2
      else Consume(Deliver(l2, kind, l2.buf[HEADERSIZE..HEADERSIZE + l2.expected], accepts))
  }

  // ------------------------------------------------------------------ exit

  /** The exit callback of the process. It may try to send twice. */
  function OnExit(l: Link, code: int64, signal: int, first: bool, second: Outcome): Link
    requires l.process.Some?
    requires l.channel.Some? || signal == SIGTERM
  {
    var l1 := l.(process := Some(l.process.value.Exited()));
    if signal == SIGTERM then l1
    else
      var l2 := Send(l1, Frame(ENDOFFILE, ExitText(code)), first).(process := None);
      if l2.outbuf != [] then SendBuf(l2, second) else Disconnect(l2)
  }

  function OnBufferEmpty(l: Link, outcome: Outcome): Link
    requires l.channel.Some?
  {
    SendBuf(OutputStarted(l), outcome)
  }

  // ------------------------------------------------------- null dereference

  /** `send` again, for every outcome. None means that the channel is used when it is null:
      after the attempt to send the server looks at the events of the channel. */
  function SendChecked(l: Link, f: Frame, outcome: Outcome): Option<Link>
    requires Encodable(f)
  {
    if (f.payload == [] && f.kind == NONE) || l.channel.None? then Some(l)
    else
      var c := l.channel.value;
      var r := SendBuf(l.(channel := Some(c.(queued := c.queued + [f])), outbuf := l.outbuf + Encode(f)),
                       outcome);
      if r.channel.None? then None else Some(r)
  }

  function SendBufChecked(l: Link, outcome: Outcome): Option<Link> {
    if l.outbuf == [] then Some(l)
    else if l.channel.None? then None
    else Some(SendBuf(l, outcome))
  }

  /** The exit callback again, from any state and for every outcome. */
  function OnExitChecked(l: Link, code: int64, signal: int, first: Outcome, second: Outcome): Option<Link>
    requires l.process.Some?
  {
    var l1 := l.(process := Some(l.process.value.Exited()));
    if signal == SIGTERM then Some(l1)
    else
      match SendChecked(l1, Frame(ENDOFFILE, ExitText(code)), first)
      case None => None
      case Some(sent) =>
        var l2 := sent.(process := None);
        if l2.outbuf != [] then SendBufChecked(l2, second)
        else if l2.channel.None? then None
        else Some(Disconnect(l2))
  }

  /** Sending uses a null channel if and only if the channel has failed under it and is not
      there again at once, which takes that no process has to be killed first. */
  lemma SendSafeIff(l: Link, f: Frame, outcome: Outcome)
    requires Encodable(f)
    ensures SendChecked(l, f, outcome) == None
            <==> l.channel.Some? && !(f.payload == [] && f.kind == NONE)
                 && outcome.Failed? && (l.process.Some? || !outcome.up)
    ensures !outcome.Failed? || l.channel.None? ==>
              SendChecked(l, f, outcome) == Some(Send(l, f, outcome.Taken?))
  {
    hide Encode;
    assert l.outbuf + Encode(f) != [];
  }

  /** The exit callback uses a null channel if and only if the command was not ended by
      SIGTERM and the channel is gone already or fails when the exit code is sent. */
  lemma ExitSafeIff(l: Link, code: int64, signal: int, first: Outcome, second: Outcome)
    requires l.process.Some?
    ensures OnExitChecked(l, code, signal, first, second) == None
            <==> signal != SIGTERM && (l.channel.None? || first.Failed?)
    ensures signal == SIGTERM || (l.channel.Some? && !first.Failed?) ==>
              OnExitChecked(l, code, signal, first, second)
              == Some(OnExit(l, code, signal, first.Taken?, second))
  {
    hide Encode, ExitText, SendBuf, SendChecked, Send;
    var l1 := l.(process := Some(l.process.value.Exited()));
    var f := Frame(ENDOFFILE, ExitText(code));
    SendSafeIff(l1, f, first);
    SendKeepsChannel(l1, f, first);
  }

  lemma SendKeepsChannel(l: Link, f: Frame, outcome: Outcome)
    requires Encodable(f)
    ensures l.channel.None? ==> SendChecked(l, f, outcome) == Some(l)
    ensures SendChecked(l, f, outcome).Some? && l.channel.Some? ==>
              SendChecked(l, f, outcome).value.channel.Some?
  {
    hide Encode;
  }
}
