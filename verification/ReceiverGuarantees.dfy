/** What the receiving side of the S3TP server does with the frames of a client. */
module ReceiverGuarantees {
  import opened Framing
  import opened Processes
  import opened Links
  import opened Sessions

  // ------------------------------------------------------------- alignment

  /** However the stream is cut into chunks, the frames consumed and the frames still in the
      buffer are the reference parse of the bytes received: none lost, split or repeated. */
  lemma ReceivesReferenceParse(up: bool, cbs: seq<Callback>)
    requires Run(up, cbs).channel.Some?
    ensures var l := Run(up, cbs); var c := l.channel.value;
      && AllAcceptable(Server, c.consumed)
      && c.received == EncodeAll(c.consumed) + l.buf
      && Parse(Server, c.received).frames == c.consumed + Parse(Server, l.buf).frames
      && c.consumed <= Parse(Server, c.received).frames
  {
    RunInvariant(up, cbs);
    hide Run, Parse, EncodeAll;
    ParseEncoded(Server, Run(up, cbs).channel.value.consumed, Run(up, cbs).buf);
  }

  // ------------------------------------------------------- one callback

  /** A callback consumes one frame, exactly if a whole one with a payload is at the front
      once its chunk is appended. Otherwise the bytes just wait, or, for a frame of length
      zero, the session ends: the channel of this session is gone. */
  lemma OneFramePerCallback(l: Link, chunk: bytes, stale: byte, accepts: bool, up: bool)
    requires Sessions.Invariant(l) && l.channel.Some?
    ensures var b := l.buf + chunk;
            var r := OnData(l, chunk, stale, accepts, up);
            if RefusedFront(Server, b) then
              r.channel.None? || r.sessions == l.sessions + 1
            else
              && r.channel.Some? && r.sessions == l.sessions
              && r.channel.value.consumed
                 == l.channel.value.consumed + (if Complete(b) then [FrontFrame(b)] else [])
              && r.buf == if Complete(b) then AfterFront(b) else b
  {
    var b := l.buf + chunk;
    var l1 := Buffered(l, chunk);
    OnDataCases(l, chunk, stale, accepts, up);
    if Complete(b) && !RefusedFront(Server, b) {
      hide OnData, LengthOf, RefusedFront, Complete, EncodeAll, Grammatical, Deliver, OutSide;
      var kind := if l.expected == 0 then b[4] else stale;
      var l2 := l1.(expected := LengthOf(b));
      InputOutSide(l, chunk, LengthOf(b));
      DeliverKeeps(l2, kind, FrontFrame(b).payload, accepts);
      ConsumeAligns(l, chunk, Deliver(l2, kind, FrontFrame(b).payload, accepts));
    }
  }

  /** The backlog: after a callback the frames in the buffer are all whole frames that were
      there with the new chunk, except the first. So nothing is left waiting if and only if
      there was at most one. */
  lemma BacklogIff(l: Link, chunk: bytes, stale: byte, accepts: bool, up: bool)
    requires Sessions.Invariant(l) && l.channel.Some?
    requires !RefusedFront(Server, l.buf + chunk)
    ensures var r := OnData(l, chunk, stale, accepts, up);
            var waiting, left := Parse(Server, l.buf + chunk).frames, Parse(Server, r.buf).frames;
      && (left == [] <==> |waiting| <= 1)
      && (waiting != [] ==> left == waiting[1..])
  {
    hide OnData, RefusedFront, Complete, Parse, Invariant;
    var b := l.buf + chunk;
    OneFramePerCallback(l, chunk, stale, accepts, up);
    if Complete(b) {
      ParseOne(Server, b);
    } else {
      ParseNone(Server, b);
    }
  }

  /** A backlog is not worked off by itself: of two frames in one chunk the second stays in
      the buffer until more bytes arrive. */
  lemma SecondFrameWaits(l: Link, f: Frame, g: Frame, stale: byte, accepts: bool, up: bool)
    requires Sessions.Invariant(l) && l.channel.Some? && l.buf == []
    requires Acceptable(Server, f) && Acceptable(Server, g)
    ensures var r := OnData(l, Encode(f) + Encode(g), stale, accepts, up);
            r.channel.Some? && r.channel.value.consumed == l.channel.value.consumed + [f]
            && r.buf == Encode(g)
  {
    hide OnData, Encode, EncodeAll, Grammatical;
    assert l.buf + (Encode(f) + Encode(g)) == Encode(f) + Encode(g);
    FrontOfEncoded(f, Encode(g));
    OneFramePerCallback(l, Encode(f) + Encode(g), stale, accepts, up);
  }

  /** A session ends by what is received exactly if a header of length zero comes to the
      front of the buffer. It kills the process, if there is one, and waits for its end. */
  lemma RefusedEndsSession(l: Link, chunk: bytes, stale: byte, accepts: bool, up: bool)
    requires Sessions.Invariant(l) && l.channel.Some?
    ensures var refused := RefusedFront(Server, l.buf + chunk);
            var r := OnData(l, chunk, stale, accepts, up);
      && (refused <==> r.channel.None? || r.sessions != l.sessions)
      && (refused <==> |l.buf + chunk| >= 5 && (l.buf + chunk)[..4] == [0, 0, 0, 0])
      && (refused && l.process.Some? ==>
            r.channel.None? && r.timer == KillWait && r.sessions == l.sessions
            && r.process == Some(l.process.value.(killed := true)))
      && (refused && l.process.None? ==>
            r.process.None? && r.buf == [] == r.outbuf && r.expected == 0
            && if up then r.channel == Some(NEW_CHANNEL) && r.sessions == l.sessions + 1
               else r.channel.None? && r.timer == Retry)
  {
    OnDataCases(l, chunk, stale, accepts, up);
    OneFramePerCallback(l, chunk, stale, accepts, up);
    RefusedIff(l.buf + chunk);
    hide OnData, RefusedFront, Complete, EncodeAll, Grammatical, Deliver, Consume, LengthOf;
  }

  /** A whole frame at the front of the buffer, whatever was buffered before and whatever
      comes behind it, is handled exactly if it has a payload. The end-of-input frame of the
      client has none: it ends the session and kills the process. */
  lemma EmptyFrameEndsSession(l: Link, chunk: bytes, f: Frame, more: bytes,
                              stale: byte, accepts: bool, up: bool)
    requires Sessions.Invariant(l) && l.channel.Some?
    requires Encodable(f) && l.buf + chunk == Encode(f) + more
    ensures var r := OnData(l, chunk, stale, accepts, up);
      && (f.payload != [] <==>
            r.channel.Some? && r.sessions == l.sessions
            && r.channel.value.consumed == l.channel.value.consumed + [f])
      && (f.payload == [] && l.process.Some? ==>
            r.channel.None? && r.timer == KillWait
            && r.process == Some(l.process.value.(killed := true)))
  {
    FrontOfEncoded(f, more);
    hide OnData, Encode, EncodeAll, Grammatical, LengthOf, Complete, FrontFrame;
    OneFramePerCallback(l, chunk, stale, accepts, up);
    RefusedEndsSession(l, chunk, stale, accepts, up);
  }

  // ------------------------------------------------------------ frame type

  /** What a frame means to a running process by its own type. */
  function Heard(p: ProcessView, f: Frame): ProcessView {
    if f.kind == ENDOFFILE then p.CloseInput() else p.Input(f.payload)
  }

  /** The process after a whole frame was handled, by the type in the local variable. */
  lemma FrameReachesProcess(l: Link, chunk: bytes, stale: byte, accepts: bool, up: bool)
    requires Sessions.Invariant(l) && l.channel.Some?
    requires Complete(l.buf + chunk) && !RefusedFront(Server, l.buf + chunk)
    ensures var f := FrontFrame(l.buf + chunk);
            var kind := if l.expected == 0 then f.kind else stale;
            OnData(l, chunk, stale, accepts, up).process
            == Some(if l.process.Some? then Heard(l.process.value, f.(kind := kind))
                    else Spawned(f.payload).(reading := true))
  {
    var b := l.buf + chunk;
    var l1 := Buffered(l, chunk);
    OnDataCases(l, chunk, stale, accepts, up);
    hide OnData, LengthOf, RefusedFront, Complete, EncodeAll, Grammatical;
    if l.process.None? {
      hide Deliver, OutSide;
      InputOutSide(l, chunk, LengthOf(b));
      var kind := if l.expected == 0 then b[4] else stale;
      DeliverKeeps(l1.(expected := LengthOf(b)), kind, FrontFrame(b).payload, accepts);
    }
  }

  /** A running process hears every frame by its own type, whatever the uninitialised local
      variable holds, if and only if the header came with the bytes that complete the frame,
      or its input is closed already. Otherwise an end of input can be taken for data and
      data for an end of input. */
  lemma TypeHeardIff(l: Link, chunk: bytes, accepts: bool, up: bool)
    requires Sessions.Invariant(l) && l.channel.Some? && l.process.Some?
    requires Complete(l.buf + chunk) && !RefusedFront(Server, l.buf + chunk)
    ensures (forall stale: byte ::
               OnData(l, chunk, stale, accepts, up).process
               == Some(Heard(l.process.value, FrontFrame(l.buf + chunk))))
            <==> l.expected == 0 || !l.process.value.hasIn
  {
    var p := l.process.value;
    var f := FrontFrame(l.buf + chunk);
    hide OnData, EncodeAll, Grammatical;
    forall stale: byte
      ensures OnData(l, chunk, stale, accepts, up).process
              == Some(Heard(p, f.(kind := if l.expected == 0 then f.kind else stale)))
    {
      FrameReachesProcess(l, chunk, stale, accepts, up);
    }
    if l.expected != 0 && p.hasIn {
      var wrong: byte := if f.kind == ENDOFFILE then STDIN else ENDOFFILE;
      assert Heard(p, f.(kind := wrong)) != Heard(p, f);
      assert OnData(l, chunk, wrong, accepts, up).process != Some(Heard(p, f));
    }
  }

  /** A header alone is remembered, and nothing else happens. */
  lemma HeaderWaits(l: Link, header: bytes, stale: byte, accepts: bool, up: bool)
    requires Sessions.Invariant(l) && l.channel.Some? && l.buf == []
    requires |header| == HEADERSIZE && LengthOf(header) > 0
    ensures OnData(l, header, stale, accepts, up) == Buffered(l, header).(expected := LengthOf(header))
    ensures Sessions.Invariant(OnData(l, header, stale, accepts, up))
  {
    assert l.buf + header == header;
    assert !Complete(header) && !RefusedFront(Server, header);
    OnDataCases(l, header, stale, accepts, up);
    hide *;
    DataKeeps(l, header, stale, accepts, up);
  }

  lemma SplitEnd(header: bytes, payload: bytes)
    requires header == [1, 0, 0, 0, ENDOFFILE] && payload == [65]
    ensures LengthOf(header) == 1
    ensures header + payload == Encode(Frame(ENDOFFILE, payload))
    ensures Complete(header + payload) && !RefusedFront(Server, header + payload)
    ensures FrontFrame(header + payload) == Frame(ENDOFFILE, payload)
  {
    assert header + payload == [1, 0, 0, 0, ENDOFFILE, 65];
    FrontOfEncoded(Frame(ENDOFFILE, payload), []);
    assert Encode(Frame(ENDOFFILE, payload)) == [1, 0, 0, 0, ENDOFFILE, 65];
    assert Encode(Frame(ENDOFFILE, payload)) + [] == [1, 0, 0, 0, ENDOFFILE, 65];
  }

  /** The failing family, on concrete bytes: an end of input with one byte of payload, cut
      right after its header, leaves the input open and is written to it as data. */
  lemma EndOfInputLost(l: Link, up: bool)
    requires Sessions.Invariant(l) && l.channel.Some? && l.buf == [] && l.expected == 0
    requires l.process.Some? && l.process.value.hasIn
    ensures var header, payload := [1, 0, 0, 0, ENDOFFILE], [65];
      && header + payload == Encode(Frame(ENDOFFILE, payload))
      && var r := OnData(l, header, NONE, true, up);
         r.channel.Some?
         && OnData(r, payload, STDIN, true, up).process
            == Some(l.process.value.(stdin := l.process.value.stdin + payload))
  {
    hide OnData, EncodeAll, Encode, Grammatical, LengthOf, Complete, RefusedFront, FrontFrame;
    var header: bytes, payload: bytes := [1, 0, 0, 0, ENDOFFILE], [65];
    SplitEnd(header, payload);
    HeaderWaits(l, header, NONE, true, up);
    var r := OnData(l, header, NONE, true, up);
    assert r.buf == header;
    FrameReachesProcess(r, payload, STDIN, true, up);
  }

  /** A run that gets there: any command, then that end of input in two chunks. The input of
      the process is still open at the end, and the payload was written to it. */
  lemma EndOfInputLostRun(f: Frame, stale: byte, accepts: bool, up: bool)
    requires Acceptable(Server, f)
    ensures var cbs := [Data(Encode(f), stale, accepts, up)]
                       + [Data([1, 0, 0, 0, ENDOFFILE], NONE, true, up)] + [Data([65], STDIN, true, up)];
            Run(true, cbs).process == Some(Spawned(f.payload).(reading := true, stdin := [65]))
  {
    var start := [Data(Encode(f), stale, accepts, up)];
    var head, tail := Data([1, 0, 0, 0, ENDOFFILE], NONE, true, up), Data([65], STDIN, true, up);
    RunInvariant(true, start);
    FirstCommand(f, stale, accepts, up);
    RunSnoc(true, start, head);
    RunSnoc(true, start + [head], tail);
    hide Run, OnData, Invariant, Encode;
    EndOfInputLost(Run(true, start), up);
    assert [] + [65] == [65];
  }
}
