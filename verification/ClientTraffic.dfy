/** What a session says over a whole run: its greeting and, for everything it has read so
    far, the PONGs of the PINGs in their order; on the wire in that order too. */
module ClientTraffic {
  import opened Basics
  import opened Framing
  import opened RateLimits
  import opened Configuration
  import opened Scheduler
  import opened SchedulerInvariants
  import opened Sessions
  import opened SessionInvariants
  import opened SessionTraffic
  import opened Clients
  import opened ClientRuns

  /** The chunks that the latest session has read. */
  function Received(steps: seq<Step>): seq<string> {
    if steps == [] then []
    else
      var before, event := Received(steps[..|steps| - 1]), steps[|steps| - 1].event;
      match event
      case ReconnectTimerFired => []
      case Delivered(BytesRead(bytes)) => before + [bytes]
      case _ => before
  }

  /** The greeting and the answers to everything in the stream. */
  function Script(config: RuntimeConfig, stream: string): seq<string> {
    Hello(config) + PongsOf(Split(stream).lines)
  }

  /** Past the handshake, an open session has followed the script to its end and buffers the
      unfinished line; a closed one has followed a part. */
  ghost predicate Conversation(config: RuntimeConfig, s: Session, dialing: bool, received: seq<string>) {
    if dialing then received == [] && s.out.ledger.offered == []
    else if s.out.closed then Said(s) <= Script(config, Concat(received))
    else
      && Feed(received).Ok? && s.buffer == Feed(received).value.tail
      && Said(s) == Hello(config) + PongsOf(Feed(received).value.lines)
  }

  /** Reading on only makes the script longer. */
  lemma ScriptGrows(config: RuntimeConfig, received: seq<string>, bytes: string)
    ensures Script(config, Concat(received)) <= Script(config, Concat(received + [bytes]))
  {
    hide Split, PongsOf, Hello;
    assert (received + [bytes])[..|received|] == received;
    var lines := Split(Concat(received)).lines;
    var more := Split(Split(Concat(received)).tail + bytes).lines;
    SplitResumes(Concat(received), bytes);
    PongsConcat(lines, more);
    assert Script(config, Concat(received + [bytes])) == Script(config, Concat(received)) + PongsOf(more);
  }

  /** What an open session has said is the whole script. */
  lemma ScriptSoFar(config: RuntimeConfig, s: Session, received: seq<string>)
    requires Conversation(config, s, false, received)
    ensures !s.out.closed ==>
              && Feed(received).value == Split(Concat(received))
              && Said(s) == Script(config, Concat(received))
    ensures Said(s) <= Script(config, Concat(received))
  {
    hide Split, PongsOf, Hello, Feed, Said;
    if !s.out.closed {
      FeedIsSplit(received);
    }
  }

  lemma ReadContinues(config: RuntimeConfig, s: Session, received: seq<string>, bytes: string, now: Time)
    requires Fits(config, s) && Conversation(config, s, false, received)
    ensures Conversation(config, OnRead(config, s, bytes, now), false, received + [bytes])
  {
    hide Split, PongsOf, Hello, Said, OnRead, Pushed, Script, Concat;
    var s' := OnRead(config, s, bytes, now);
    ScriptSoFar(config, s, received);
    ScriptGrows(config, received, bytes);
    if s.out.closed {
      ClosedSaysNothing(config, s, bytes, now);
    } else {
      ReadAnswersPings(config, s, bytes, now);
      assert (received + [bytes])[..|received|] == received;
      var lines, more := Feed(received).value.lines, LinesIn(s.buffer, bytes);
      PongsConcat(lines, more);
      assert Said(s) + PongsOf(more) == Hello(config) + PongsOf(lines + more) by {
        assert Said(s) + PongsOf(more) == Hello(config) + (PongsOf(lines) + PongsOf(more));
      }
      if s'.out.closed {
        ClosingReadFollows(config, s, received, bytes);
      }
    }
  }

  /** What a read could have answered is in the script of the longer stream. */
  lemma ClosingReadFollows(config: RuntimeConfig, s: Session, received: seq<string>, bytes: string)
    requires !s.out.closed && Conversation(config, s, false, received)
    ensures Said(s) + PongsOf(LinesIn(s.buffer, bytes)) <= Script(config, Concat(received + [bytes]))
  {
    hide Split, Hello, Said, Concat, Pushed, PongsOf;
    var all := received + [bytes];
    assert all[..|received|] == received;
    ScriptSoFar(config, s, received);
    if Pushed(s.buffer, bytes).1.Ok? {
      var lines, more := Feed(received).value.lines, LinesIn(s.buffer, bytes);
      FeedIsSplit(all);
      PongsConcat(lines, more);
      assert Said(s) + PongsOf(more) == Hello(config) + (PongsOf(lines) + PongsOf(more));
    } else {
      ScriptGrows(config, received, bytes);
      assert PongsOf([]) == [] by { NoPongs(); }
      assert Said(s) + [] == Said(s);
    }
  }

  lemma NoPongs()
    ensures PongsOf([]) == []
  {
  }

  /** A callback that offers nothing and leaves the buffer alone continues a conversation. */
  lemma QuietContinues(config: RuntimeConfig, s: Session, s': Session, dialing: bool, received: seq<string>)
    requires Conversation(config, s, dialing, received)
    requires s'.out.ledger.offered == s.out.ledger.offered && s'.buffer == s.buffer
    requires s.out.closed ==> s'.out.closed
    ensures Conversation(config, s', dialing, received)
  {
    hide Split, PongsOf, Hello, Feed, Said, Script;
    SameSaid(s, s');
    if !dialing {
      ScriptSoFar(config, s, received);
    }
  }

  /** A connection that fails, or a handshake. */
  lemma DialEnds(config: RuntimeConfig, s: Session, now: Time)
    requires Validated(config) && Dialing(config, s, now) && Conversation(config, s, true, [])
    ensures Conversation(config, OnHandshake(config, s, now), false, [])
    ensures Conversation(config, Close(s, NetworkError), false, [])
  {
    hide Validated, Inv, OnHandshake, EngineReady, Hello, Said;
    HandshakeSays(config, s, now);
    HandshakeKeeps(config, s, now);
    SaidNothing(s);
    SameSaid(s, Close(s, NetworkError));
    HandshakeProgress(config, s, now);
    assert Hello(config) + [] == Hello(config);
  }

  lemma SaidNothing(s: Session)
    requires s.out.ledger.offered == []
    ensures Said(s) == []
  {
  }

  /** The callbacks that offer nothing. */
  lemma OffersNothing(config: RuntimeConfig, s: Session, e: SessionEvent, now: Time)
    requires Fits(config, s) && (e.WriteDone? ==> s.out.currentWrite.Some?)
    requires !e.HandshakeDone? && !e.BytesRead?
    ensures var s' := Callback(config, s, e, now);
            && s'.out.ledger.offered == s.out.ledger.offered && s'.buffer == s.buffer
            && (s.out.closed ==> s'.out.closed)
  {
    hide ScheduleWrite, OnTimer, OnWriteDone, OnWriteFailed;
    match e {
      case WriteTimerFired => TimerProgress(s.out, now);
      case StaleWakeUp => ScheduleProgress(s.out, now);
      case WriteDone => DoneProgress(s.out, now);
      case WriteFailed => FailedProgress(s.out);
      case _ =>
    }
  }

  lemma StepContinues(config: RuntimeConfig, w: World, st: Step, received: seq<string>)
    requires Validated(config) && WorldInv(config, w) && Enabled(w, st) && WorldFits(config, w)
    requires w.session.Some? ==> Conversation(config, w.session.value, w.dialing, received)
    ensures var w' := Next(config, w, st);
            var received' := match st.event
                             case ReconnectTimerFired => []
                             case Delivered(BytesRead(bytes)) => received + [bytes]
                             case _ => received;
            w'.session.Some? ==> Conversation(config, w'.session.value, w'.dialing, received')
  {
    hide Validated, Inv, Running, Conversation, Callback, React, OneAtATime, Reported;
    match st.event {
      case ReconnectTimerFired =>
        assert !w.client.stopping by { StoppedIsUnarmed(w.client); }
        NewConversation(config, LimitsOf(w));
      case StopRequested =>
        if w.session.Some? {
          QuietContinues(config, w.session.value, Close(w.session.value, Stopped), w.dialing, received);
        }
      case Delivered(e) =>
        SessionContinues(config, w, e, st, received);
    }
  }

  lemma StoppedIsUnarmed(c: Client)
    requires OneAtATime(c)
    ensures c.stopping ==> c.reconnectTimer.None?
  {
  }

  lemma NewConversation(config: RuntimeConfig, limits: Limits)
    ensures Conversation(config, NewSession(config, limits), true, [])
  {
  }

  lemma SessionContinues(config: RuntimeConfig, w: World, e: SessionEvent, st: Step, received: seq<string>)
    requires Validated(config) && WorldInv(config, w) && w.now <= st.now
    requires Deliverable(w, e, st.now) && WorldFits(config, w)
    requires Conversation(config, w.session.value, w.dialing, received)
    ensures var w' := SessionStep(config, w, e, st);
            Conversation(config, w'.session.value, w'.dialing, if e.BytesRead? then received + [e.bytes] else received)
  {
    hide Validated, Inv, Running, Dialing, Conversation, OnRead, OnHandshake, React, OneAtATime, Reported,
      OnTimer, OnWriteDone, OnWriteFailed, ScheduleWrite, Close;
    var s := w.session.value;
    match e {
      case HandshakeDone =>
        SessionLater(config, s, w.now, st.now);
        DialingReceivedNothing(config, s, received);
        DialEnds(config, s, st.now);
      case DialFailed =>
        SessionLater(config, s, w.now, st.now);
        DialingReceivedNothing(config, s, received);
        DialEnds(config, s, st.now);
      case BytesRead(bytes) =>
        ReadContinues(config, s, received, bytes, st.now);
      case _ =>
        OffersNothing(config, s, e, st.now);
        QuietContinues(config, s, Callback(config, s, e, st.now), w.dialing, received);
    }
  }

  lemma DialingReceivedNothing(config: RuntimeConfig, s: Session, received: seq<string>)
    requires Conversation(config, s, true, received)
    ensures received == []
  {
  }

  lemma {:induction false} RunConverses(config: RuntimeConfig, begin: Time, steps: seq<Step>, w: World)
    requires Reaches(config, begin, steps, w) && w.session.Some?
    ensures Conversation(config, w.session.value, w.dialing, Received(steps))
  {
    hide Validated, Next, Enabled, WorldInv, Conversation;
    if steps != [] {
      var n := |steps| - 1;
      var before := After(config, begin, steps[..n]).value;
      RunKeeps(config, begin, steps[..n], before);
      if before.session.Some? {
        RunConverses(config, begin, steps[..n], before);
      }
      StepContinues(config, before, steps[n], Received(steps[..n]));
    }
  }

  /** In every run, an open session past the handshake has cut everything it received into
      the lines and the tail of the whole stream. */
  lemma FramesWholeStream(config: RuntimeConfig, begin: Time, steps: seq<Step>, w: World)
    requires Reaches(config, begin, steps, w) && w.session.Some? && !w.dialing && !w.session.value.out.closed
    ensures Feed(Received(steps)) == Ok(Split(Concat(Received(steps))))
    ensures w.session.value.buffer == Split(Concat(Received(steps))).tail
  {
    hide Reaches, Split, Feed, Concat, Hello, PongsOf;
    RunConverses(config, begin, steps, w);
    FeedIsSplit(Received(steps));
  }

  /** It has offered its greeting and one PONG for each PING in that stream, in order, and
      no other system message. */
  lemma AnswersEveryPing(config: RuntimeConfig, begin: Time, steps: seq<Step>, w: World)
    requires Reaches(config, begin, steps, w) && w.session.Some? && !w.dialing && !w.session.value.out.closed
    ensures Said(w.session.value) == Script(config, Concat(Received(steps)))
  {
    hide Reaches, Script, Conversation, Concat, Said;
    RunConverses(config, begin, steps, w);
    ScriptSoFar(config, w.session.value, Received(steps));
  }

  /** What any session, open or closed, has offered is a prefix of that, and so are the
      system lines on its wire: PONGs leave in the order in which their PINGs arrived. */
  lemma AnswersInOrder(config: RuntimeConfig, begin: Time, steps: seq<Step>, w: World)
    requires Reaches(config, begin, steps, w) && w.session.Some?
    ensures var script := Script(config, Concat(Received(steps)));
            Said(w.session.value) <= script && SystemLines(Started(w.session.value.out)) <= script
  {
    hide Reaches, Inv, SystemLines, Started, Hello, PongsOf, Split, Feed;
    var s := w.session.value;
    RunConverses(config, begin, steps, w);
    RunOut(config, begin, steps, w);
    SaidInOrder(s, w.now);
    if w.dialing {
      SaidNothing(s);
    } else {
      ScriptSoFar(config, s, Received(steps));
    }
  }
}
