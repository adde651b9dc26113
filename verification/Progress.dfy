/** What happens again: a server without a channel recovers, and a command whose output was
    held back is polled again. */
module Progress {
  import opened Framing
  import opened Processes
  import opened Links
  import opened Sessions
  import opened SessionGuarantees
  import opened Effects

  // ------------------------------------------------------------- recovery

  /** Whenever there is no channel, the next timer begins a new session if the reconnect
      succeeds, and leaves a retry pending and nothing else if it does not. */
  lemma Recovery(up: bool, cbs: seq<Callback>)
    requires Run(up, cbs).channel.None?
    ensures var l := Run(up, cbs);
            var yes, no := Run(up, cbs + [TimerFired(true)]), Run(up, cbs + [TimerFired(false)]);
      && l.timer != Idle
      && FreshSession(yes) && yes.timer == Idle && yes.sessions == l.sessions + 1
      && no.channel.None? && no.process.None? && no.timer == Retry && no.sessions == l.sessions
  {
    hide Run, Next;
    RunInvariant(up, cbs);
    RunSnoc(up, cbs, TimerFired(true));
    RunSnoc(up, cbs, TimerFired(false));
    IdleEffect(Run(up, cbs), TimerFired(true));
    IdleEffect(Run(up, cbs), TimerFired(false));
  }

  /** The server waits for nothing but a timer whose reconnect succeeds: until then there is no
      channel, and with it there is one. */
  lemma {:induction false} RecoversAtTimer(up: bool, cbs: seq<Callback>, more: seq<Callback>)
    requires Run(up, cbs).channel.None?
    requires forall i :: 0 <= i < |more| ==> more[i] != TimerFired(true)
    ensures var l, r := Run(up, cbs + more), Run(up, cbs + more + [TimerFired(true)]);
      && l.channel.None? && l.sessions == Run(up, cbs).sessions
      && FreshSession(r) && r.sessions == Run(up, cbs).sessions + 1
    decreases |more|
  {
    hide Run, Next, Sessions.Invariant;
    if more == [] {
      assert cbs + more == cbs;
    } else {
      var init, cb := more[..|more| - 1], more[|more| - 1];
      assert cbs + more == (cbs + init) + [cb];
      RecoversAtTimer(up, cbs, init);
      RunInvariant(up, cbs + init);
      RunSnoc(up, cbs + init, cb);
      IdleEffect(Run(up, cbs + init), cb);
    }
    Recovery(up, cbs + more);
  }

  // -------------------------------------------------------------- polling

  /** A live session has a process whose output is not polled. */
  predicate Unpolled(l: Link) {
    l.channel.Some? && l.process.Some? && !Polled(l)
  }

  predicate PolledLive(l: Link) {
    l.channel.Some? && Polled(l)
  }

  /** The callback meets a full channel while the output is polled. */
  predicate MeetsFull(l: Link, cb: Callback) {
    && PolledLive(l)
    && (|| cb.BufferFull?
        || (HasOutput(l, cb) && !cb.accepts)
        || (cb.BufferEmpty? && cb.outcome.Full? && l.outbuf != []))
  }

  /** The channel is empty again, and takes what was waiting, if anything was. */
  predicate Empties(l: Link, cb: Callback) {
    cb.BufferEmpty? && (l.outbuf == [] || cb.outcome.Taken?)
  }

  predicate StaysUnpolled(l: Link, cb: Callback) {
    !DropsChannel(l, cb) && !Finishes(l, cb) && !Empties(l, cb)
  }

  /** A command starts, or the channel of one that was not polled is empty again. */
  predicate StartsPolling(l: Link, cb: Callback) {
    && l.channel.Some? && !Polled(l) && !DropsChannel(l, cb)
    && (Starts(l, cb) || (l.process.Some? && Empties(l, cb)))
  }

  predicate StaysPolled(l: Link, cb: Callback) {
    !DropsChannel(l, cb) && !Finishes(l, cb) && !MeetsFull(l, cb)
  }

  lemma PollingStep(l: Link, cb: Callback)
    requires Sane(l) && Sessions.Invariant(l)
    ensures Stepwise(Unpolled, MeetsFull, StaysUnpolled, l, cb)
    ensures Stepwise(PolledLive, StartsPolling, StaysPolled, l, cb)
  {
    hide Next, Sessions.Invariant, Complete, RefusedFront, ExitText;
    if l.channel.Some? {
      LiveEffect(l, cb);
    } else {
      IdleEffect(l, cb);
    }
  }

  /** In every run, the output of a live session is not polled if and only if a callback met a
      full channel, and since then the channel was not empty again, the command has not
      finished, and the session has not ended. */
  lemma UnpolledIffSince(up: bool, cbs: seq<Callback>)
    ensures Unpolled(Run(up, cbs))
            <==> exists i :: 0 <= i < |cbs| && Since(up, cbs, MeetsFull, StaysUnpolled, i)
  {
    assert !Unpolled(Run(up, []));
    hide *;
    forall k | 0 <= k < |cbs|
      ensures Stepwise(Unpolled, MeetsFull, StaysUnpolled, Run(up, cbs[..k]), cbs[k])
    {
      RunInvariant(up, cbs[..k]);
      PollingStep(Run(up, cbs[..k]), cbs[k]);
    }
    HoldsIffSince(up, cbs, Unpolled, MeetsFull, StaysUnpolled);
  }

  /** It is polled if and only if the command was started or the channel was empty again, and
      since then no callback met a full channel, and none ended the command or the session. */
  lemma PolledIffSince(up: bool, cbs: seq<Callback>)
    ensures PolledLive(Run(up, cbs))
            <==> exists i :: 0 <= i < |cbs| && Since(up, cbs, StartsPolling, StaysPolled, i)
  {
    assert !PolledLive(Run(up, []));
    hide *;
    forall k | 0 <= k < |cbs|
      ensures Stepwise(PolledLive, StartsPolling, StaysPolled, Run(up, cbs[..k]), cbs[k])
    {
      RunInvariant(up, cbs[..k]);
      PollingStep(Run(up, cbs[..k]), cbs[k]);
    }
    HoldsIffSince(up, cbs, PolledLive, StartsPolling, StaysPolled);
  }

  /** Once the channel is empty again and takes the buffer, everything queued has been sent and
      the process is polled; if there is none, what was waiting ends with the soft-close. */
  lemma OutputResumes(up: bool, cbs: seq<Callback>)
    requires Run(up, cbs).channel.Some?
    ensures var l, r := Run(up, cbs), Run(up, cbs + [BufferEmpty(Taken)]);
      && SameSession(l, r) && r.outbuf == []
      && r.channel.value.queued == l.channel.value.queued
      && AllEncodable(r.channel.value.queued)
      && r.channel.value.sent == EncodeAll(r.channel.value.queued)
      && (r.process.Some? <==> l.process.Some?) && (r.process.Some? ==> r.process.value.reading)
      && (l.process.None? && l.outbuf != [] ==> SoftCloses(l, r))
  {
    var l, r := Run(up, cbs), Run(up, cbs + [BufferEmpty(Taken)]);
    hide Run, Next, EncodeAll, Grammatical, Aligned, ExitText, Complete, RefusedFront;
    RunInvariant(up, cbs);
    RunInvariant(up, cbs + [BufferEmpty(Taken)]);
    RunSnoc(up, cbs, BufferEmpty(Taken));
    LiveEffect(l, BufferEmpty(Taken));
    assert l.channel.value.queued + [] == l.channel.value.queued;
    assert r.channel.value.sent + [] == r.channel.value.sent;
    SoftCloseExactlyAtEnd(up, cbs, BufferEmpty(Taken));
  }
}
