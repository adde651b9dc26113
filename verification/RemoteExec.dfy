/** The ground client (test/s3tp/remoteexec.cpp): its message encoder and its decoder. */
module RemoteExec {
  import opened Framing

  /** What a client has made of the bytes it received. `crashed` is the exception it throws
      on a header that has neither length nor type. */
  datatype ClientView = ClientView(
    buf: bytes,
    frames: seq<Frame>,
    running: bool,
    output: bytes,
    crashed: bool)

  const FRESH_CLIENT: ClientView := ClientView([], [], true, [], false)

  /** The bytes printed for a list of frames: the payload of all but the control frames. */
  function Printed(fs: seq<Frame>): bytes {
    if fs == [] then []
    else
      (if fs[0].kind == STARTED || fs[0].kind == ENDOFFILE then [] else fs[0].payload)
      + Printed(fs[1..])
  }

  predicate HasEnd(fs: seq<Frame>) {
    exists i :: 0 <= i < |fs| && fs[i].kind == ENDOFFILE
  }

  /** The client after it has taken in what its buffer parses to. */
  function Absorb(v: ClientView, p: Parsed): ClientView {
    ClientView(p.rest, v.frames + p.frames, v.running && !HasEnd(p.frames),
               v.output + Printed(p.frames), p.refused)
  }

  /** The effect of one chunk, stated with the reference parser. */
  function Receive(v: ClientView, chunk: bytes): ClientView {
    if v.crashed then v else Absorb(v, Parse(Client, v.buf + chunk))
  }

  function ReceiveAll(v: ClientView, chunks: seq<bytes>): ClientView
    decreases |chunks|
  {
    if chunks == [] then v else ReceiveAll(Receive(v, chunks[0]), chunks[1..])
  }

  function Flatten(chunks: seq<bytes>): bytes {
    if chunks == [] then [] else chunks[0] + Flatten(chunks[1..])
  }

  // -------------------------------------------------------------- lemmas

  lemma {:induction false} PrintedConcat(fs: seq<Frame>, gs: seq<Frame>)
    ensures Printed(fs + gs) == Printed(fs) + Printed(gs)
  {
    if fs == [] {
      assert fs + gs == gs;
    } else {
      assert (fs + gs)[1..] == fs[1..] + gs;
      PrintedConcat(fs[1..], gs);
    }
  }

  lemma HasEndConcat(fs: seq<Frame>, gs: seq<Frame>)
    ensures HasEnd(fs + gs) <==> HasEnd(fs) || HasEnd(gs)
  {
    if HasEnd(fs) {
      var i :| 0 <= i < |fs| && fs[i].kind == ENDOFFILE;
      assert (fs + gs)[i].kind == ENDOFFILE;
    }
    if HasEnd(gs) {
      var i :| 0 <= i < |gs| && gs[i].kind == ENDOFFILE;
      assert (fs + gs)[|fs| + i].kind == ENDOFFILE;
    }
  }

  lemma AbsorbTwice(v: ClientView, p: Parsed, q: Parsed)
    ensures Absorb(Absorb(v, p), q) == Absorb(v, q.(frames := p.frames + q.frames))
  {
    PrintedConcat(p.frames, q.frames);
    HasEndConcat(p.frames, q.frames);
    hide Printed, HasEnd;
    assert (v.frames + p.frames) + q.frames == v.frames + (p.frames + q.frames);
    assert (v.output + Printed(p.frames)) + Printed(q.frames)
        == v.output + (Printed(p.frames) + Printed(q.frames));
  }

  /** Two chunks are as good as one. */
  lemma ReceiveTwice(v: ClientView, a: bytes, b: bytes)
    requires !v.crashed && !Receive(v, a).crashed
    ensures Receive(Receive(v, a), b) == Receive(v, a + b)
  {
    hide Parse, Printed, HasEnd;
    var p := Parse(Client, v.buf + a);
    assert v.buf + (a + b) == (v.buf + a) + b;
    ParseContinues(Client, v.buf + a, b);
    AbsorbTwice(v, p, Parse(Client, p.rest + b));
  }

  /** A refused header is final: what follows is never looked at. */
  lemma ReceiveAfterCrash(v: ClientView, a: bytes, b: bytes)
    requires !v.crashed && Receive(v, a).crashed
    ensures Receive(v, a + b).(buf := []) == Receive(v, a).(buf := [])
  {
    hide Parse, Printed, HasEnd;
    assert v.buf + (a + b) == (v.buf + a) + b;
    RefusalStays(Client, v.buf + a, b);
  }

  lemma {:induction false} ReceiveCrashed(v: ClientView, chunks: seq<bytes>)
    requires v.crashed
    ensures ReceiveAll(v, chunks) == v
    decreases |chunks|
  {
    if chunks != [] {
      ReceiveCrashed(v, chunks[1..]);
    }
  }

  /** No whole frame and no refused header is waiting in the buffer. */
  predicate Drained(v: ClientView) {
    !v.crashed && Parse(Client, v.buf) == Parsed([], v.buf, false)
  }

  /** How the stream is cut into chunks makes no difference to the client, except for what
      is left in the buffer of a client that has crashed. */
  lemma {:induction false} ChunkingIrrelevant(v: ClientView, chunks: seq<bytes>)
    requires Drained(v)
    ensures var one, many := Receive(v, Flatten(chunks)), ReceiveAll(v, chunks);
      && many.(buf := []) == one.(buf := [])
      && (!many.crashed ==> many == one)
    decreases |chunks|
  {
    hide Parse, Receive, Absorb;
    if chunks == [] {
      NothingReceived(v);
    } else {
      var next := Receive(v, chunks[0]);
      if next.crashed {
        ReceiveCrashed(next, chunks[1..]);
        ReceiveAfterCrash(v, chunks[0], Flatten(chunks[1..]));
      } else {
        RestIsParsed(v, chunks[0]);
        ChunkingIrrelevant(next, chunks[1..]);
        ReceiveTwice(v, chunks[0], Flatten(chunks[1..]));
      }
    }
  }

  lemma NothingReceived(v: ClientView)
    requires Drained(v)
    ensures Receive(v, []) == v
  {
    assert v.buf + [] == v.buf;
    hide Parse;
    assert v.frames + [] == v.frames && v.output + [] == v.output;
  }

  lemma RestIsParsed(v: ClientView, chunk: bytes)
    requires !v.crashed && !Receive(v, chunk).crashed
    ensures Drained(Receive(v, chunk))
  {
    ParsedRest(Client, v.buf + chunk);
  }

  /** A fresh client makes of a stream what the reference parser makes of it. */
  lemma FreshClientParses(chunks: seq<bytes>)
    ensures var p := Parse(Client, Flatten(chunks));
            var v := ReceiveAll(FRESH_CLIENT, chunks);
      && v.frames == p.frames && v.running == !HasEnd(p.frames) && v.output == Printed(p.frames)
      && v.crashed == p.refused && (!v.crashed ==> v.buf == p.rest)
  {
    assert Drained(FRESH_CLIENT);
    hide Parse, Printed, HasEnd, Flatten, ReceiveAll;
    ChunkingIrrelevant(FRESH_CLIENT, chunks);
    var a := Flatten(chunks);
    var p := Parse(Client, a);
    assert [] + a == a && [] + p.frames == p.frames && [] + Printed(p.frames) == Printed(p.frames);
  }

  lemma ParseAll(fs: seq<Frame>)
    requires AllAcceptable(Client, fs)
    ensures Parse(Client, EncodeAll(fs)) == Parsed(fs, [], false)
  {
    ParseEncoded(Client, fs, []);
    assert Parse(Client, []) == Parsed([], [], false);
    hide EncodeAll, Parse;
    assert EncodeAll(fs) + [] == EncodeAll(fs) && fs + [] == fs;
  }

  /** The framing round trip: every sequence of frames the client accepts, sent in one session
      and cut into chunks in any way, arrives as exactly those frames in order, with nothing
      left in the buffer. */
  lemma FramingRoundTrip(fs: seq<Frame>, chunks: seq<bytes>)
    requires AllAcceptable(Client, fs) && Flatten(chunks) == EncodeAll(fs)
    ensures ReceiveAll(FRESH_CLIENT, chunks) == ClientView([], fs, !HasEnd(fs), Printed(fs), false)
  {
    hide EncodeAll, Parse, HasEnd, Printed, Flatten, ReceiveAll;
    ParseAll(fs);
    FreshClientParses(chunks);
  }

  /** While bytes are still on the way, the client has got a prefix of the frames. */
  lemma FramingPrefix(fs: seq<Frame>, chunks: seq<bytes>)
    requires AllAcceptable(Client, fs) && Flatten(chunks) <= EncodeAll(fs)
    ensures var v := ReceiveAll(FRESH_CLIENT, chunks); v.frames <= fs && !v.crashed
  {
    hide EncodeAll, Parse, HasEnd, Printed, Flatten, ReceiveAll;
    var a := Flatten(chunks);
    var b := EncodeAll(fs)[|a|..];
    assert a + b == EncodeAll(fs);
    ParseAll(fs);
    ParsePrefix(Client, a, b);
    FreshClientParses(chunks);
  }

  // -------------------------------------------------------------- client

  /** The buffer writeData sends. `len` is a uint32_t, so a longer line is cut. */
  method WriteData(line: bytes, kind: byte) returns (sendbuf: bytes)
    ensures sendbuf == Encode(Frame(kind, line[..|line| % 0x1_0000_0000]))
    ensures |line| < 0x1_0000_0000 ==> sendbuf == Encode(Frame(kind, line))
  {
    var len: uint32 := |line| % 0x1_0000_0000;
    sendbuf := LengthBytes(len);
    sendbuf := sendbuf + [kind];
    sendbuf := sendbuf + line[..len];
    assert |line| < 0x1_0000_0000 ==> line[..len] == line;
  }

  class RemoteexecCallback {
    var buf: bytes
    var expected: uint32
    var kind: byte
    var running: bool
    var output: bytes
    var crashed: bool
    ghost var frames: seq<Frame>

    ghost function View(): ClientView
      reads this
    {
      ClientView(buf, frames, running, output, crashed)
    }

    /** A header that was read already is still at the front of the buffer. */
    ghost predicate Valid()
      reads this
    {
      expected != 0 ==> |buf| >= HEADERSIZE && expected == LengthOf(buf) && kind == buf[4]
    }

    constructor ()
      ensures Valid() && View() == FRESH_CLIENT
    {
      buf, expected, kind, running, output, crashed, frames := [], 0, NONE, true, [], false, [];
    }

    /** One frame, if there is a whole one: takes it off the buffer and returns true. */
    method HandleBuffer() returns (more: bool)
      requires Valid() && !crashed
      modifies this
      ensures Valid()
      ensures more <==> Complete(old(buf)) && !RefusedFront(Client, old(buf))
      ensures more ==> View() == Absorb(old(View()), Parsed([FrontFrame(old(buf))], AfterFront(old(buf)), false))
      ensures !more ==> View() == old(View()).(crashed := RefusedFront(Client, old(buf)))
    {
      if |buf| < HEADERSIZE {
        return false;
      }
      if expected == 0 {
        expected := LengthOf(buf);
        kind := buf[4];
        if expected == 0 && kind == NONE {
          crashed := true;
          return false;
        }
      }
      if |buf| < expected + HEADERSIZE {
        return false;
      }
      var indata := buf[HEADERSIZE..HEADERSIZE + expected];
      ghost var f := Frame(kind, indata);
      assert Printed([f]) == if kind == STARTED || kind == ENDOFFILE then [] else indata;
      if kind == STARTED {
      } else if kind == ENDOFFILE {
        running := false;
      } else {
        output := output + indata;
      }
      assert HasEnd([f]) <==> [f][0].kind == ENDOFFILE;
      frames := frames + [f];
      buf := buf[HEADERSIZE + expected..];
      expected := 0;
      return true;
    }

    method OnDataReceived(data: bytes)
      requires Valid() && !crashed
      modifies this
      ensures Valid()
      ensures View() == Receive(old(View()), data)
    {
      buf := buf + data;
      ghost var goal := Absorb(View(), Parse(Client, buf));
      var more := true;
      while more
        invariant Valid()
        invariant more ==> !crashed && Absorb(View(), Parse(Client, buf)) == goal
        invariant !more ==> View() == goal
        decreases |buf|, more
      {
        ghost var before := View();
        more := HandleBuffer();
        if more {
          ParseOne(Client, before.buf);
          AbsorbTwice(before, Parsed([FrontFrame(before.buf)], AfterFront(before.buf), false), Parse(Client, buf));
        } else {
          ParseNone(Client, before.buf);
          assert before.frames + [] == before.frames && before.output + [] == before.output;
        }
      }
    }
  }
}
