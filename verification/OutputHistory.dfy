/** From the child process to the screen of the client: the frames of a session are the
    history of its commands, and so are the text and the exit codes the client gets. */
module OutputHistory {
  import opened Framing
  import opened Processes
  import opened Links
  import opened Sessions
  import opened SessionGuarantees
  import opened Effects
  import opened ExitCodes
  import opened RemoteExec

  // ------------------------------------------------- histories of a session

  /** The callback leaves the session without a successor, or leads to the next one. */
  predicate Resets(l: Link, cb: Callback) {
    l.channel.None? || DropsChannel(l, cb)
  }

  /** The frames of the current session: a STARTED frame for every command that started, a
      frame for every output, and an ENDOFFILE frame with the code for every command that
      finished. */
  function Emitted(up: bool, cbs: seq<Callback>): seq<Frame>
    decreases |cbs|
  {
    if cbs == [] then [] else
      var init, cb := cbs[..|cbs| - 1], cbs[|cbs| - 1];
      if Resets(Run(up, init), cb) then [] else Emitted(up, init) + Queued(Run(up, init), cb)
  }

  /** The output the commands of the current session have written, on either pipe. */
  function Written(up: bool, cbs: seq<Callback>): bytes
    decreases |cbs|
  {
    if cbs == [] then [] else
      var init, cb := cbs[..|cbs| - 1], cbs[|cbs| - 1];
      if Resets(Run(up, init), cb) then []
      else Written(up, init) + if HasOutput(Run(up, init), cb) then cb.data else []
  }

  /** The exit codes of the commands of the current session that have finished. */
  function Codes(up: bool, cbs: seq<Callback>): seq<int>
    decreases |cbs|
  {
    if cbs == [] then [] else
      var init, cb := cbs[..|cbs| - 1], cbs[|cbs| - 1];
      if Resets(Run(up, init), cb) then []
      else Codes(up, init) + if Finishes(Run(up, init), cb) then [cb.code as int] else []
  }

  /** The exit codes that a list of frames reports. */
  function CodesIn(fs: seq<Frame>): seq<int> {
    if fs == [] then [] else
      var f := fs[|fs| - 1];
      CodesIn(fs[..|fs| - 1]) + if f.kind == 16 then [ReadExit(f.payload)] else []
  }

  lemma EmittedSnoc(up: bool, cbs: seq<Callback>, cb: Callback)
    ensures Emitted(up, cbs + [cb])
         == if Resets(Run(up, cbs), cb) then [] else Emitted(up, cbs) + Queued(Run(up, cbs), cb)
    ensures Written(up, cbs + [cb])
         == if Resets(Run(up, cbs), cb) then []
            else Written(up, cbs) + if HasOutput(Run(up, cbs), cb) then cb.data else []
    ensures Codes(up, cbs + [cb])
         == if Resets(Run(up, cbs), cb) then []
            else Codes(up, cbs) + if Finishes(Run(up, cbs), cb) then [cb.code as int] else []
  {
    hide Run;
    assert (cbs + [cb])[..|cbs|] == cbs;
  }

  // -------------------------------------------------------------- the queue

  lemma QueueStep(l: Link, cb: Callback, emitted: seq<Frame>)
    requires Sane(l) && Sessions.Invariant(l) && (l.channel.Some? ==> l.channel.value.queued == emitted)
    ensures var r := Next(l, cb);
            r.channel.Some? ==>
              r.channel.value.queued == if Resets(l, cb) then [] else emitted + Queued(l, cb)
  {
    hide Next, Sessions.Invariant, Queued, DropsChannel;
    if l.channel.Some? {
      LiveEffect(l, cb);
    } else {
      IdleEffect(l, cb);
    }
  }

  /** In every run, the frames queued in a session are exactly what its commands did. */
  lemma {:induction false} QueueIsEmitted(up: bool, cbs: seq<Callback>)
    ensures Run(up, cbs).channel.Some? ==> Run(up, cbs).channel.value.queued == Emitted(up, cbs)
    decreases |cbs|
  {
    if cbs == [] {
    } else {
      hide *;
      var init, cb := cbs[..|cbs| - 1], cbs[|cbs| - 1];
      assert cbs == init + [cb];
      QueueIsEmitted(up, init);
      RunInvariant(up, init);
      RunSnoc(up, init, cb);
      EmittedSnoc(up, init, cb);
      QueueStep(Run(up, init), cb, Emitted(up, init));
    }
  }

  // ------------------------------------------------- what the client gets

  lemma CodesInConcat(fs: seq<Frame>, gs: seq<Frame>)
    requires |gs| <= 1
    ensures CodesIn(fs + gs) == CodesIn(fs) + CodesIn(gs)
  {
    if gs == [] {
      assert fs + gs == fs;
    } else {
      assert (fs + gs)[..|fs|] == fs && gs[..0] == [];
    }
  }

  /** What the frames of one callback print and report. */
  lemma QueuedMeans(l: Link, cb: Callback)
    ensures |Queued(l, cb)| <= 1
    ensures Printed(Queued(l, cb)) == if HasOutput(l, cb) then cb.data else []
    ensures CodesIn(Queued(l, cb)) == if Finishes(l, cb) then [cb.code as int] else []
  {
    if Finishes(l, cb) {
      ExitTextReads(cb.code);
    }
    hide ExitText, ReadExit, Complete, RefusedFront;
  }

  /** The frames of a session print what its commands wrote and report their exit codes. */
  lemma {:induction false} EmittedMeans(up: bool, cbs: seq<Callback>)
    ensures Printed(Emitted(up, cbs)) == Written(up, cbs)
    ensures CodesIn(Emitted(up, cbs)) == Codes(up, cbs)
    decreases |cbs|
  {
    if cbs == [] {
    } else {
      var init, cb := cbs[..|cbs| - 1], cbs[|cbs| - 1];
      assert cbs == init + [cb];
      hide Run, Queued, HasOutput, Finishes, Resets, Emitted, Written, Codes;
      EmittedMeans(up, init);
      EmittedSnoc(up, init, cb);
      QueuedMeans(Run(up, init), cb);
      PrintedConcat(Emitted(up, init), Queued(Run(up, init), cb));
      CodesInConcat(Emitted(up, init), Queued(Run(up, init), cb));
    }
  }

  lemma {:induction false} EndHasCode(fs: seq<Frame>)
    ensures HasEnd(fs) <==> CodesIn(fs) != []
    decreases |fs|
  {
    if fs != [] {
      var init, f := fs[..|fs| - 1], fs[|fs| - 1];
      assert fs == init + [f];
      EndHasCode(init);
      HasEndConcat(init, [f]);
      assert HasEnd([f]) <==> [f][0].kind == 16;
    }
  }

  lemma PrintedPrefix(fs: seq<Frame>, gs: seq<Frame>)
    requires fs <= gs
    ensures Printed(fs) <= Printed(gs)
  {
    assert gs == fs + gs[|fs|..];
    PrintedConcat(fs, gs[|fs|..]);
  }

  /** From the child to the screen: whatever part of the bytes sent has arrived, in whatever
      chunks, the client has printed a prefix of what the commands of the session wrote. If
      all of it arrived and the output buffer is empty, it has printed everything, was told the
      exit code of every command that finished, and goes on running only if there is none. */
  lemma ChildToScreen(up: bool, cbs: seq<Callback>, chunks: seq<bytes>)
    requires Run(up, cbs).channel.Some?
    requires Flatten(chunks) <= Run(up, cbs).channel.value.sent
    ensures var l := Run(up, cbs);
            var v := ReceiveAll(FRESH_CLIENT, chunks);
      && !v.crashed && v.output <= Written(up, cbs)
      && (Flatten(chunks) == l.channel.value.sent && l.outbuf == [] ==>
            v.output == Written(up, cbs) && CodesIn(v.frames) == Codes(up, cbs)
            && (v.running <==> Codes(up, cbs) == []))
  {
    hide Run, Printed, CodesIn, Emitted, Written, Codes, ReceiveAll, Flatten, Parse, HasEnd;
    QueueIsEmitted(up, cbs);
    EmittedMeans(up, cbs);
    ServerToClient(up, cbs, chunks);
    FreshClientParses(chunks);
    EndHasCode(Emitted(up, cbs));
    PrintedPrefix(ReceiveAll(FRESH_CLIENT, chunks).frames, Emitted(up, cbs));
  }

  /** A client that has read a finished session learns the exit code of its command from the
      last frame. */
  lemma ClientLearnsExit(up: bool, cbs: seq<Callback>, chunks: seq<bytes>)
    requires Run(up, cbs).channel.Some? && Ended(Run(up, cbs))
    requires Run(up, cbs).channel.value.queued != []
    requires Flatten(chunks) == Run(up, cbs).channel.value.sent
    ensures var fs, codes := ReceiveAll(FRESH_CLIENT, chunks).frames, Codes(up, cbs);
      && fs != [] && codes != []
      && fs[|fs| - 1].kind == ENDOFFILE
      && ReadExit(fs[|fs| - 1].payload) == codes[|codes| - 1]
  {
    hide Run, CodesIn, Codes, ReceiveAll, Flatten, ReadExit, Printed, Written, HasEnd;
    ChildToScreen(up, cbs, chunks);
    ServerToClient(up, cbs, chunks);
    RunInvariant(up, cbs);
    LastIsEnd(Run(up, cbs));
    LastCode(Run(up, cbs).channel.value.queued);
  }

  lemma LastIsEnd(l: Link)
    requires Sessions.Invariant(l) && l.channel.Some? && Ended(l) && l.channel.value.queued != []
    ensures var q := l.channel.value.queued; q[|q| - 1].kind == ENDOFFILE
  {
    hide ServerFrame, EncodeAll, Aligned;
  }

  lemma LastCode(fs: seq<Frame>)
    requires fs != [] && fs[|fs| - 1].kind == ENDOFFILE
    ensures var codes := CodesIn(fs);
            codes != [] && codes[|codes| - 1] == ReadExit(fs[|fs| - 1].payload)
  {
    hide ReadExit;
  }
}
