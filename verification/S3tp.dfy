/** The S3TP server of HORST (src/server/s3tp.cpp), proved equal to the functions of module
    Links. Every callback keeps the session invariant. Where the source would use a channel
    that is null, a method returns with `ok` false. */
module S3tp {
  import opened Framing
  import opened Processes
  import opened Links
  import Sessions

  class S3TPServer {
    var channel: Option<Channel>
    ghost var sessions: nat
    var buf: bytes
    var expected: uint32
    var outbuf: bytes
    var process: Process?
    var timer: Timer

    ghost function View(): Link
      reads this, process
    {
      Link(channel, sessions, buf, expected, outbuf,
           if process == null then None else Some(process.View()), timer)
    }

    /** What holds whenever no callback is running, once the server was started. */
    ghost predicate Valid()
      reads this, process
    {
      Sessions.Invariant(View())
    }

    constructor ()
      ensures View() == UNSTARTED
    {
      channel, sessions, buf, expected, outbuf, process, timer := None, 0, [], 0, [], null, Idle;
    }

    method Reconnect(up: bool) returns (ok: bool)
      modifies this, process
      ensures View() == Links.Reconnect(old(View()), up)
      ensures process == old(process)
      ensures ok <==> channel.Some?
    {
      if channel.Some? {
        return true;
      }
      if process != null {
        process.Kill();
        timer := KillWait;
        return false;
      }
      buf := [];
      expected := 0;
      outbuf := [];
      if up {
        channel := Some(NEW_CHANNEL);
        sessions := sessions + 1;
        return true;
      } else {
        timer := Retry;
        return false;
      }
    }

    method Start(up: bool) returns (ok: bool)
      requires View() == UNSTARTED
      modifies this, process
      ensures Valid()
      ensures View() == Links.Reconnect(old(View()), up)
      ensures ok <==> channel.Some?
    {
      Sessions.ReconnectKeeps(View(), up);
      ok := Reconnect(up);
    }

    method Close(up: bool)
      modifies this, process
      ensures View() == Links.Close(old(View()), up)
      ensures process == old(process)
    {
      channel := None;
      var _ := Reconnect(up);
    }

    /** The S3TP library reports that the connection is gone. */
    method OnDisconnected(up: bool)
      requires Valid() && channel.Some?
      modifies this, process
      ensures Valid()
      ensures View() == Links.Close(old(View()), up)
    {
      hide Sessions.Invariant, Links.Close;
      Sessions.CloseKeeps(View(), up);
      Close(up);
    }

    method OnTimer(up: bool)
      requires Valid() && timer != Idle
      modifies this, process
      ensures Valid()
      ensures View() == TimerFires(old(View()), up)
    {
      hide Sessions.Invariant, Links.Reconnect;
      Sessions.TimerKeeps(View(), up);
      if timer == KillWait {
        process := null;
      }
      timer := Idle;
      var _ := Reconnect(up);
    }

    method SendBuf(outcome: Outcome) returns (done: bool)
      requires channel.Some?
      modifies this, process
      ensures View() == Links.SendBuf(old(View()), outcome)
      ensures process == old(process)
      ensures done <==> old(outbuf) == [] || outcome.Taken?
    {
      if |outbuf| == 0 {
        return true;
      }
      if outcome.Full? {
        if process != null {
          process.StopOutput();
        }
        return false;
      }
      if outcome.Failed? {
        Close(outcome.up);
        return false;
      }
      channel := Some(channel.value.(sent := channel.value.sent + outbuf));
      outbuf := [];
      if process == null {
        Disconnect();
      }
      return true;
    }

    method Disconnect()
      requires channel.Some?
      modifies this`channel
      ensures channel == Some(old(channel.value).(disconnects := old(channel.value.disconnects) + 1))
    {
      channel := Some(channel.value.(disconnects := channel.value.disconnects + 1));
    }

    method Send(msg: bytes, kind: byte, outcome: Outcome) returns (ok: bool)
      requires |msg| < 0x1_0000_0000
      modifies this, process
      ensures process == old(process)
      ensures ok <==> SendChecked(old(View()), Frame(kind, msg), outcome).Some?
      ensures ok ==> Some(View()) == SendChecked(old(View()), Frame(kind, msg), outcome)
    {
      if |msg| == 0 && kind == NONE {
        return true;
      }
      if channel.None? {
        return true;
      }
      channel := Some(channel.value.(queued := channel.value.queued + [Frame(kind, msg)]));
      outbuf := outbuf + (LengthBytes(|msg|) + [kind] + msg);
      var _ := SendBuf(outcome);
      return channel.Some?;
    }

    method OnDataReceived(data: bytes, stale: byte, outcome: Outcome, up: bool) returns (ok: bool)
      requires Valid() && channel.Some?
      modifies this, process
      ensures ok <==> !(outcome.Failed? && old(process) == null && Complete(old(buf) + data)
                        && !RefusedFront(Server, old(buf) + data))
      ensures ok ==> Valid() && View() == OnData(old(View()), data, stale, outcome.Taken?, up)
    {
      hide Links.Deliver, Links.Consume, Links.Close, LengthOf, Sessions.Invariant;
      Sessions.DataKeeps(View(), data, stale, outcome.Taken?, up);
      if expected != 0 {
        ExpectedIsLength(data);
      }
      var kind := stale;
      channel := Some(channel.value.(received := channel.value.received + data));
      buf := buf + data;
      if |buf| < HEADERSIZE {
        return true;
      }
      if expected == 0 {
        expected := LengthOf(buf);
        kind := buf[4];
        if expected == 0 {
          Close(up);
          return true;
        }
      }
      if |buf| >= expected + HEADERSIZE {
        ok := Deliver(kind, outcome);
        if ok {
          Consume();
        }
        return;
      }
      return true;
    }

    /** Once a header was read, the length expected is the one in the buffer. */
    lemma ExpectedIsLength(more: bytes)
      requires Valid() && channel.Some? && expected != 0
      ensures |buf| >= HEADERSIZE && expected == LengthOf(buf + more)
    {
    }

    /** The payload of a whole frame is input of the running process or the next command. */
    method Deliver(kind: byte, outcome: Outcome) returns (ok: bool)
      requires channel.Some? && |buf| >= HEADERSIZE + expected
      modifies this, process
      ensures ok <==> old(process) != null || !outcome.Failed?
      ensures ok ==> channel.Some? && buf == old(buf) && expected == old(expected)
      ensures ok ==> View() == Links.Deliver(old(View()), kind,
                                             old(buf[HEADERSIZE..HEADERSIZE + expected]), outcome.Taken?)
    {
      hide Links.Send, SendChecked, Encode;
      var payload := buf[HEADERSIZE..HEADERSIZE + expected];
      if process != null {
        if kind == ENDOFFILE {
          process.CloseInput();
        } else {
          process.Input(payload);
        }
        return true;
      }
      process := new Process(payload);
      SendSafeIff(View(), Frame(STARTED, []), outcome);
      ok := Send([], STARTED, outcome);
      if ok {
        process.StartOutput();
        assert View() == Links.Deliver(old(View()), kind, payload, outcome.Taken?);
      }
    }

    method Consume()
      requires channel.Some? && |buf| >= HEADERSIZE + expected
      modifies this
      ensures View() == Links.Consume(old(View()))
    {
      var f := Frame(buf[4], buf[HEADERSIZE..HEADERSIZE + expected]);
      channel := Some(channel.value.(consumed := channel.value.consumed + [f]));
      buf := buf[HEADERSIZE + expected..];
      expected := 0;
    }

    /** Output of the process: the read callback sends what it has read. */
    method OnOutput(err: bool, data: bytes, outcome: Outcome) returns (ok: bool)
      requires Valid() && process != null && 0 < |data| < 0x1_0000_0000
      modifies this, process
      ensures ok <==> old(channel).None? || !outcome.Failed?
      ensures ok ==> Valid() && View() == Links.Send(old(View()), Frame(if err then STDERR else STDOUT, data),
                                                     outcome.Taken?)
    {
      hide Sessions.Invariant, Links.Send, SendChecked;
      var f := Frame(if err then STDERR else STDOUT, data);
      Sessions.OutputKeeps(View(), err, data, outcome.Taken?);
      SendSafeIff(View(), f, outcome);
      ok := Send(data, f.kind, outcome);
    }

    /** The command exits by itself or by a signal, with the channel live or gone. */
    method OnExit(code: int64, signal: int, first: Outcome, second: Outcome) returns (ok: bool)
      requires Valid() && process != null
      modifies this, process
      ensures ok <==> OnExitChecked(old(View()), code, signal, first, second).Some?
      ensures ok ==> Valid() && Some(View()) == OnExitChecked(old(View()), code, signal, first, second)
    {
      hide Sessions.Invariant, Links.SendBuf, ExitText, SendChecked;
      ExitSafeIff(View(), code, signal, first, second);
      if signal == SIGTERM || (channel.Some? && !first.Failed?) {
        Sessions.ExitKeeps(View(), code, signal, first.Taken?, second);
      }
      var runs := process.ExitCallback(code, signal);
      if !runs {
        return true;
      }
      ok := Send(ExitText(code), ENDOFFILE, first);
      if !ok {
        return;
      }
      process := null;
      if channel.None? {
        return false;
      }
      if |outbuf| > 0 {
        var _ := SendBuf(second);
      } else {
        Disconnect();
      }
    }

    method OnBufferFull()
      requires Valid()
      modifies process
      ensures Valid()
      ensures View() == OutputStopped(old(View()))
    {
      hide Sessions.Invariant;
      Sessions.FullKeeps(View());
      if process != null {
        process.StopOutput();
      }
    }

    method OnBufferEmpty(outcome: Outcome)
      requires Valid() && channel.Some?
      modifies this, process
      ensures Valid()
      ensures View() == Links.OnBufferEmpty(old(View()), outcome)
    {
      hide Sessions.Invariant, Links.SendBuf;
      Sessions.BufferEmptyKeeps(View(), outcome);
      if process != null {
        process.StartOutput();
      }
      var _ := SendBuf(outcome);
    }
  }
}
