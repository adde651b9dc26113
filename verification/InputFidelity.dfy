/** What the child process of a session gets of the frames its client sent, over every run. */
module InputFidelity {
  import opened Framing
  import opened Processes
  import opened Links
  import opened Sessions
  import opened ReceiverGuarantees

  /** What a list of frames means to a running process, each one by its own type. */
  function HeardAll(p: ProcessView, fs: seq<Frame>): ProcessView {
    if fs == [] then p else Heard(HeardAll(p, fs[..|fs| - 1]), fs[|fs| - 1])
  }

  /** The two agree on the command, on the input written, and on whether input is open. */
  predicate SameInput(p: ProcessView, q: ProcessView) {
    p.command == q.command && p.hasIn == q.hasIn && p.stdin == q.stdin
  }

  /** The process was started by frame `k` and has heard all later ones. */
  predicate HeardSince(p: ProcessView, fs: seq<Frame>, k: nat)
    requires k < |fs|
  {
    SameInput(p, HeardAll(Spawned(fs[k].payload), fs[k + 1..]))
  }

  /** A process that has not exited was started by frame `k` of its session, and has heard
      exactly the frames after that one. */
  predicate GotInput(l: Link, k: nat) {
    l.channel.Some? && l.process.Some? && l.process.value.open ==>
      k < |l.channel.value.consumed| && HeardSince(l.process.value, l.channel.value.consumed, k)
  }

  /** Does the callback start a process? */
  predicate Starts(l: Link, cb: Callback) {
    cb.Data? && l.channel.Some? && l.process.None?
    && Complete(l.buf + cb.chunk) && !RefusedFront(Server, l.buf + cb.chunk)
  }

  /** The number of frames the session had consumed when its latest process was started. */
  function Birth(up: bool, cbs: seq<Callback>): nat
    decreases |cbs|
  {
    if cbs == [] then 0 else
      var init, cb := cbs[..|cbs| - 1], cbs[|cbs| - 1];
      if Starts(Run(up, init), cb) then |Run(up, init).channel.value.consumed| else Birth(up, init)
  }

  /** If the callback completes a frame for a process, the type of the frame is known, or no
      longer matters: the header came with the same chunk, or the input is closed. */
  predicate TypeKnown(l: Link, cb: Callback) {
    cb.Data? && l.channel.Some? && l.process.Some?
    && Complete(l.buf + cb.chunk) && !RefusedFront(Server, l.buf + cb.chunk)
    ==> l.expected == 0 || !l.process.value.hasIn
  }

  predicate TypesKnown(up: bool, cbs: seq<Callback>) {
    forall i :: 0 <= i < |cbs| ==> TypeKnown(Run(up, cbs[..i]), cbs[i])
  }

  // ---------------------------------------------------------------- frames

  lemma HeardAllSnoc(p: ProcessView, fs: seq<Frame>, f: Frame)
    ensures HeardAll(p, fs + [f]) == Heard(HeardAll(p, fs), f)
  {
    assert (fs + [f])[..|fs|] == fs;
  }

  /** One more frame, heard by its own type or by a process whose input is closed. */
  lemma HearsOneMore(p: ProcessView, fs: seq<Frame>, f: Frame, kind: byte, k: nat)
    requires k < |fs| && HeardSince(p, fs, k)
    requires kind == f.kind || !p.hasIn
    ensures HeardSince(Heard(p, f.(kind := kind)), fs + [f], k)
  {
    assert (fs + [f])[k + 1..] == fs[k + 1..] + [f];
    HeardAllSnoc(Spawned(fs[k].payload), fs[k + 1..], f);
    hide HeardAll;
  }

  lemma HearsNothingYet(p: ProcessView, fs: seq<Frame>, f: Frame)
    requires SameInput(p, Spawned(f.payload))
    ensures HeardSince(p, fs + [f], |fs|)
  {
    assert (fs + [f])[|fs| + 1..] == [];
  }

  // ----------------------------------------------------------------- input

  /** The data in a list of frames, up to the first end of input. */
  function DataOf(fs: seq<Frame>): bytes {
    if fs == [] || fs[0].kind == ENDOFFILE then [] else fs[0].payload + DataOf(fs[1..])
  }

  predicate EndsInput(fs: seq<Frame>) {
    exists i :: 0 <= i < |fs| && fs[i].kind == ENDOFFILE
  }

  /** The process was started by frame `k`. Its input is the payloads of all later frames up
      to the first end of input, and is open exactly if there is none. */
  predicate InputIs(p: ProcessView, fs: seq<Frame>, k: nat)
    requires k < |fs|
  {
    && p.command == fs[k].payload
    && p.stdin == DataOf(fs[k + 1..])
    && (p.hasIn <==> !EndsInput(fs[k + 1..]))
  }

  lemma {:induction false} DataOfSnoc(fs: seq<Frame>, f: Frame)
    ensures EndsInput(fs + [f]) <==> EndsInput(fs) || f.kind == ENDOFFILE
    ensures DataOf(fs + [f])
         == DataOf(fs) + if EndsInput(fs) || f.kind == ENDOFFILE then [] else f.payload
    decreases |fs|
  {
    var all := fs + [f];
    assert all[|fs|] == f;
    assert forall i :: 0 <= i < |fs| ==> all[i] == fs[i];
    if fs != [] {
      assert all[1..] == fs[1..] + [f];
      if fs[0].kind != ENDOFFILE {
        DataOfSnoc(fs[1..], f);
        EndsInputTail(fs);
      }
    }
  }

  lemma EndsInputTail(fs: seq<Frame>)
    requires fs != [] && fs[0].kind != ENDOFFILE
    ensures EndsInput(fs) <==> EndsInput(fs[1..])
  {
    if EndsInput(fs) {
      var i :| 0 <= i < |fs| && fs[i].kind == ENDOFFILE;
      assert fs[1..][i - 1].kind == ENDOFFILE;
    }
  }

  /** The fold of `Heard` means the data and the end of input in the frames. */
  lemma {:induction false} HeardAllMeans(command: bytes, fs: seq<Frame>)
    ensures var p := HeardAll(Spawned(command), fs);
            p.command == command && p.stdin == DataOf(fs) && (p.hasIn <==> !EndsInput(fs))
    decreases |fs|
  {
    if fs != [] {
      var init, f := fs[..|fs| - 1], fs[|fs| - 1];
      assert fs == init + [f];
      HeardAllMeans(command, init);
      DataOfSnoc(init, f);
      hide DataOf, EndsInput;
    }
  }

  lemma HeardSinceMeans(p: ProcessView, fs: seq<Frame>, k: nat)
    requires k < |fs|
    ensures HeardSince(p, fs, k) <==> InputIs(p, fs, k)
  {
    HeardAllMeans(fs[k].payload, fs[k + 1..]);
    hide HeardAll, DataOf, EndsInput;
  }

  // ------------------------------------------------------------- one step

  lemma DataGotInput(l: Link, chunk: bytes, stale: byte, accepts: bool, up: bool, k: nat)
    requires Sessions.Invariant(l) && l.channel.Some?
    requires GotInput(l, k) && TypeKnown(l, Data(chunk, stale, accepts, up))
    ensures GotInput(OnData(l, chunk, stale, accepts, up),
                     if Starts(l, Data(chunk, stale, accepts, up)) then |l.channel.value.consumed| else k)
  {
    hide OnData, RefusedFront, Complete, Invariant, HeardSince;
    var b := l.buf + chunk;
    var r := OnData(l, chunk, stale, accepts, up);
    OneFramePerCallback(l, chunk, stale, accepts, up);
    if RefusedFront(Server, b) || !Complete(b) {
      IdleData(l, chunk, stale, accepts, up);
    } else {
      FrameReachesProcess(l, chunk, stale, accepts, up);
      var fs, f := l.channel.value.consumed, FrontFrame(b);
      if l.process.None? {
        HearsNothingYet(r.process.value, fs, f);
      } else if l.process.value.open {
        HearsOneMore(l.process.value, fs, f, if l.expected == 0 then f.kind else stale, k);
      }
    }
  }

  /** A chunk that completes nothing does nothing to the process, unless it ends the session. */
  lemma IdleData(l: Link, chunk: bytes, stale: byte, accepts: bool, up: bool)
    requires Sessions.Invariant(l) && l.channel.Some?
    requires var b := l.buf + chunk; RefusedFront(Server, b) || !Complete(b)
    ensures var r := OnData(l, chunk, stale, accepts, up);
            r.channel.Some? && r.process.Some? ==> r.process == l.process
                                                   && r.channel.value.consumed == l.channel.value.consumed
  {
    OnDataCases(l, chunk, stale, accepts, up);
    hide OnData, LengthOf;
  }

  /** The callback leaves the input of the process alone, or ends the process or the session. */
  predicate InputUntouched(l: Link, r: Link) {
    r.channel.Some? && r.process.Some? && r.process.value.open ==>
      && l.channel.Some? && l.process.Some? && l.process.value.open
      && SameInput(r.process.value, l.process.value)
      && r.channel.value.consumed == l.channel.value.consumed
  }

  lemma UntouchedGotInput(l: Link, r: Link, k: nat)
    requires GotInput(l, k) && InputUntouched(l, r)
    ensures GotInput(r, k)
  {
    hide HeardAll;
  }

  lemma OthersUntouched(l: Link, cb: Callback)
    requires Sane(l) && !cb.Data?
    ensures InputUntouched(l, Next(l, cb))
  {
    hide Encode, ExitText;
  }

  lemma StepGotInput(l: Link, cb: Callback, k: nat)
    requires Sane(l) && Sessions.Invariant(l) && GotInput(l, k) && TypeKnown(l, cb)
    ensures GotInput(Next(l, cb), if Starts(l, cb) then |l.channel.value.consumed| else k)
  {
    hide Invariant, GotInput, TypeKnown, OnData, Complete, RefusedFront;
    if cb.Data? {
      if l.channel.Some? {
        DataGotInput(l, cb.chunk, cb.stale, cb.accepts, cb.up, k);
      }
    } else {
      OthersUntouched(l, cb);
      UntouchedGotInput(l, Next(l, cb), k);
    }
  }

  // ----------------------------------------------------------------- runs

  lemma TypesKnownSnoc(up: bool, cbs: seq<Callback>, cb: Callback)
    requires TypesKnown(up, cbs + [cb])
    ensures TypesKnown(up, cbs) && TypeKnown(Run(up, cbs), cb)
  {
    hide Run, TypeKnown;
    var all := cbs + [cb];
    assert all[..|cbs|] == cbs && all[|cbs|] == cb;
    forall i | 0 <= i < |cbs|
      ensures TypeKnown(Run(up, cbs[..i]), cbs[i])
    {
      assert all[..i] == cbs[..i] && all[i] == cbs[i];
    }
  }

  lemma BirthSnoc(up: bool, cbs: seq<Callback>, cb: Callback)
    ensures Birth(up, cbs + [cb])
         == if Starts(Run(up, cbs), cb) then |Run(up, cbs).channel.value.consumed| else Birth(up, cbs)
  {
    hide Run;
    assert (cbs + [cb])[..|cbs|] == cbs;
  }

  /** Input fidelity over runs: the process of a session was started by the frame that came
      when there was none, and its input is exactly what all later frames say, none lost, split
      or repeated. */
  lemma {:induction false} ProcessHearsClient(up: bool, cbs: seq<Callback>)
    requires TypesKnown(up, cbs)
    ensures GotInput(Run(up, cbs), Birth(up, cbs))
    decreases |cbs|
  {
    if cbs == [] {
      StartGotInput(up);
    } else {
      hide *;
      var init, cb := cbs[..|cbs| - 1], cbs[|cbs| - 1];
      assert cbs == init + [cb];
      TypesKnownSnoc(up, init, cb);
      ProcessHearsClient(up, init);
      RunInvariant(up, init);
      RunSnoc(up, init, cb);
      BirthSnoc(up, init, cb);
      StepGotInput(Run(up, init), cb, Birth(up, init));
    }
  }

  lemma StartGotInput(up: bool)
    ensures GotInput(Run(up, []), Birth(up, []))
  {
  }

  /** Frames whose encoding is a prefix of the encoding of others are the first of those. */
  lemma {:induction false} PrefixConsumed(fs: seq<Frame>, consumed: seq<Frame>, more: bytes)
    requires AllEncodable(fs) && AllEncodable(consumed)
    requires EncodeAll(consumed) + more == EncodeAll(fs)
    ensures consumed <= fs
    decreases |consumed|
  {
    if consumed != [] {
      hide Encode;
      var rest := EncodeAll(consumed[1..]) + more;
      assert EncodeAll(fs) == Encode(consumed[0]) + rest;
      FrontOfEncoded(consumed[0], rest);
      FrontOfEncoded(fs[0], EncodeAll(fs[1..]));
      PrefixConsumed(fs[1..], consumed[1..], more);
      assert consumed == [consumed[0]] + consumed[1..] && fs == [fs[0]] + fs[1..];
    }
  }

  /** From the client to the child process, the counterpart of `ServerToClient`: of the frames
      the client sent, empty ones included, whatever part of their bytes has arrived in
      whatever chunks, the server has handled a prefix; one of them is the command of the
      process, and its input is the data in the ones after that, up to an end of input. */
  lemma ClientToServer(up: bool, cbs: seq<Callback>, fs: seq<Frame>)
    requires Run(up, cbs).channel.Some? && AllEncodable(fs)
    requires Run(up, cbs).channel.value.received <= EncodeAll(fs)
    requires TypesKnown(up, cbs)
    ensures var l := Run(up, cbs);
            var n, k := |l.channel.value.consumed|, Birth(up, cbs);
      && l.channel.value.consumed <= fs && AllAcceptable(Server, l.channel.value.consumed)
      && (l.process.Some? && l.process.value.open ==>
            k < n <= |fs| && HeardSince(l.process.value, fs[..n], k) && InputIs(l.process.value, fs[..n], k))
  {
    hide AllAcceptable, Complete, Parse, Run, EncodeAll, HeardSince, InputIs, TypesKnown, Birth, AllEncodable;
    ReceivesReferenceParse(up, cbs);
    ProcessHearsClient(up, cbs);
    var l := Run(up, cbs);
    ReceivedPrefix(fs, l.channel.value.consumed, l.buf, l.channel.value.received);
    if l.process.Some? && l.process.value.open {
      HeardSinceMeans(l.process.value, l.channel.value.consumed, Birth(up, cbs));
    }
  }

  lemma ReceivedPrefix(fs: seq<Frame>, consumed: seq<Frame>, buf: bytes, received: bytes)
    requires AllEncodable(fs) && AllEncodable(consumed)
    requires received == EncodeAll(consumed) + buf && received <= EncodeAll(fs)
    ensures consumed <= fs && fs[..|consumed|] == consumed
  {
    hide EncodeAll, AllEncodable;
    var later := EncodeAll(fs)[|received|..];
    assert EncodeAll(consumed) + (buf + later) == received + later;
    assert received + later == EncodeAll(fs);
    PrefixConsumed(fs, consumed, buf + later);
  }
}
