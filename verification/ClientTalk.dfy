/** Everything a session says over a whole run. */
module ClientTalk {
  import opened Framing
  import opened RateLimits
  import opened Configuration
  import opened Scheduler
  import opened SchedulerInvariants
  import opened Sessions
  import opened SessionInvariants
  import opened SessionEnds
  import opened SessionTalk
  import opened Screenplays
  import opened Clients
  import opened ClientRuns
  import opened ClientTraffic

  /** The reads of the latest session. */
  function Reads(steps: seq<Step>): seq<Chunk> {
    if steps == [] then []
    else
      var before, last := Reads(steps[..|steps| - 1]), steps[|steps| - 1];
      match last.event
      case ReconnectTimerFired => []
      case Delivered(BytesRead(bytes)) => before + [Chunk(bytes, last.now)]
      case _ => before
  }

  lemma SessionActs(config: RuntimeConfig, w: World, e: SessionEvent, st: Step, at: Time, heard: seq<Chunk>)
    requires Validated(config) && WorldInv(config, w) && w.now <= st.now
    requires Deliverable(w, e, st.now) && WorldFits(config, w)
    requires Acts(config, w.session.value, w.dialing, at, heard)
    ensures var w' := SessionStep(config, w, e, st);
            Acts(config, w'.session.value, w'.dialing, if e.HandshakeDone? then st.now else at,
                 if e.BytesRead? then heard + [Chunk(e.bytes, st.now)] else heard)
  {
    hide Validated, Inv, Running, Dialing, Acts, OnRead, OnHandshake, React, OneAtATime, Reported,
      OnTimer, OnWriteDone, OnWriteFailed, ScheduleWrite, Close, Healthy;
    var s := w.session.value;
    SessionLater(config, s, w.now, st.now);
    match e {
      case HandshakeDone =>
        DialingHeardNothing(config, s, at, heard, st.now);
        DialActs(config, s, st.now);
      case DialFailed =>
        DialingHeardNothing(config, s, at, heard, st.now);
        DialActs(config, s, st.now);
      case BytesRead(bytes) =>
        ReadActs(config, s, at, heard, Chunk(bytes, st.now));
      case _ =>
        HearsNothing(config, s, e, st.now);
        RunningInv(config, s, st.now);
        OpenDialIsHealthy(s.out, st.now);
        QuietActs(config, s, Callback(config, s, e, st.now), w.dialing, at, heard);
    }
  }

  lemma DialingHeardNothing(config: RuntimeConfig, s: Session, at: Time, heard: seq<Chunk>, now: Time)
    requires Acts(config, s, true, at, heard)
    ensures heard == [] && Acts(config, s, true, now, [])
  {
  }

  lemma StepActs(config: RuntimeConfig, w: World, st: Step, at: Time, heard: seq<Chunk>)
    requires Validated(config) && WorldInv(config, w) && Enabled(w, st) && WorldFits(config, w)
    requires w.session.Some? ==> Acts(config, w.session.value, w.dialing, at, heard)
    ensures var w' := Next(config, w, st);
            var at' := if st.event == Delivered(HandshakeDone) then st.now else at;
            var heard' := match st.event
                          case ReconnectTimerFired => []
                          case Delivered(BytesRead(bytes)) => heard + [Chunk(bytes, st.now)]
                          case _ => heard;
            w'.session.Some? ==> Acts(config, w'.session.value, w'.dialing, at', heard')
  {
    hide Validated, Inv, Running, Dialing, Acts, Callback, React, OneAtATime, Reported, Close;
    match st.event {
      case ReconnectTimerFired =>
        assert !w.client.stopping by { StoppedIsUnarmed(w.client); }
        NewActs(config, LimitsOf(w), at);
      case StopRequested =>
        if w.session.Some? {
          CloseActs(config, w.session.value, w.dialing, at, heard);
        }
      case Delivered(e) =>
        SessionActs(config, w, e, st, at, heard);
    }
  }

  lemma CloseActs(config: RuntimeConfig, s: Session, dialing: bool, at: Time, heard: seq<Chunk>)
    requires Acts(config, s, dialing, at, heard)
    ensures Acts(config, Close(s, Stopped), dialing, at, heard)
  {
    hide Acts;
    QuietActs(config, s, Close(s, Stopped), dialing, at, heard);
  }

  lemma NewActs(config: RuntimeConfig, limits: Limits, at: Time)
    ensures Acts(config, NewSession(config, limits), true, at, [])
  {
  }

  lemma {:induction false} RunActs(config: RuntimeConfig, begin: Time, steps: seq<Step>, w: World)
    requires Reaches(config, begin, steps, w) && w.session.Some?
    ensures Acts(config, w.session.value, w.dialing, HandshakeAt(steps), Reads(steps))
  {
    hide Validated, Next, Enabled, WorldInv, Acts;
    if steps != [] {
      var n := |steps| - 1;
      var before := After(config, begin, steps[..n]).value;
      RunKeeps(config, begin, steps[..n], before);
      if before.session.Some? {
        RunActs(config, begin, steps[..n], before);
      }
      StepActs(config, before, steps[n], HandshakeAt(steps[..n]), Reads(steps[..n]));
    }
  }

  /** In every run, an open session past the handshake has offered exactly its screenplay:
      the greeting and, for each message it was told, the PONG, the JOINs of a completed ready
      batch, and the bot's responses if it is ready then, each with its channel and due time. */
  lemma SaysExactly(config: RuntimeConfig, begin: Time, steps: seq<Step>, w: World)
    requires Reaches(config, begin, steps, w) && w.session.Some? && !w.dialing && !w.session.value.out.closed
    ensures Talk(w.session.value) == Screenplay(config, HandshakeAt(steps), Reads(steps))
  {
    hide Reaches, Talk, Replies, Told, Greeting, Stream, Split;
    RunActs(config, begin, steps, w);
  }

  /** A closed session has offered a part of its screenplay, in order. */
  lemma SaysNothingElse(config: RuntimeConfig, begin: Time, steps: seq<Step>, w: World)
    requires Reaches(config, begin, steps, w) && w.session.Some?
    ensures Talk(w.session.value) <= Screenplay(config, HandshakeAt(steps), Reads(steps))
  {
    hide Reaches, Uttered, Replies, Told, Greeting, Stream, Split;
    RunActs(config, begin, steps, w);
    if w.dialing {
      NothingUttered(w.session.value);
    }
  }

  /** The chat among it: exactly the bot's responses to the messages after which the session
      was ready, in order. */
  lemma ChatExactly(config: RuntimeConfig, begin: Time, steps: seq<Step>, w: World)
    requires Reaches(config, begin, steps, w) && w.session.Some? && !w.dialing && !w.session.value.out.closed
    ensures OfKind(Talk(w.session.value), Chat) == Privmsgs(BotSays(config.bot, Witnessed(Told(Reads(steps)))))
  {
    hide Reaches, Talk, OfKind, Screenplay, Told, Witnessed, BotSays, Privmsgs;
    SaysExactly(config, begin, steps, w);
    ChatOfScreenplay(config, HandshakeAt(steps), Reads(steps));
  }
}
