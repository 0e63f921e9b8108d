/** Why sessions end over a whole run, and what the client then does. */
module ClientEnds {
  import opened Basics
  import opened Framing
  import opened RateLimits
  import opened Configuration
  import opened Scheduler
  import opened SchedulerInvariants
  import opened Sessions
  import opened SessionInvariants
  import opened SessionEnds
  import opened Clients
  import opened ClientRuns

  /** Why a step ends the open session, if it does. */
  ghost function Cause(s: Session, event: Event, refused: bool): Option<EndReason> {
    match event
    case ReconnectTimerFired => None
    case StopRequested => Some(Stopped)
    case Delivered(e) => Reason(s, e, refused)
  }

  /** What the client does about it: it goes on, reconnects, or stops for good. */
  ghost predicate Reacted(cause: Option<EndReason>, c: Client) {
    match cause
    case None => !c.stopping && c.connected && c.reconnectTimer.None? && c.exitCode == 0
    case Some(NetworkError) => !c.stopping && !c.connected && c.reconnectTimer.Some? && c.exitCode == 0
    case Some(ReconnectRequested) => !c.stopping && !c.connected && c.reconnectTimer.Some? && c.exitCode == 0
    case Some(Fatal) => c.stopping && !c.connected && c.reconnectTimer.None? && c.exitCode == 1
    case Some(Stopped) => c.stopping && !c.connected && c.reconnectTimer.None? && c.exitCode == 0
  }

  lemma OpenIsHealthy(o: Outbox, now: Time)
    requires Inv(o, now)
    ensures !o.closed ==> Healthy(o)
  {
    hide Order, Balanced, Numbered, SystemFifo, Paced, Armed;
  }

  lemma OpenEngine(config: RuntimeConfig, s: Session, dialing: bool, now: Time)
    requires Validated(config) && if dialing then Dialing(config, s, now) else Running(config, s, now)
    ensures EngineReady(config, s.engine)
  {
    hide Validated, Inv, Greeted, Gated, EngineReady;
    NewEngineReady(config);
  }

  /** An open session of a client that is not stopping. */
  ghost predicate Live(w: World, s: Session) {
    && w.session == Some(s) && Healthy(s.out)
    && !w.client.stopping && w.client.connected && w.client.reconnectTimer.None? && w.client.exitCode == 0
  }

  lemma OpenIsLive(config: RuntimeConfig, w: World, s: Session)
    requires WorldInv(config, w) && w.session == Some(s) && !s.out.closed
    ensures Live(w, s)
  {
    hide Inv, Running, Dialing;
    RunningInv(config, s, w.now);
    OpenIsHealthy(s.out, w.now);
  }

  lemma CallbackReacts(w: World, s: Session, s': Session, st: Step, reason: Option<EndReason>)
    requires Live(w, s) && EndedBy(reason, s'.out) && reason != Some(Stopped)
    ensures Reacted(reason, React(w.client, s, s', st.jitter, st.now))
  {
    hide BackoffSeconds;
  }

  /** The end of an open session in any step of any run: exactly for its cause, reported
      once with that reason, and followed by what the client does about it. */
  lemma EndsExactly(config: RuntimeConfig, begin: Time, steps: seq<Step>, w: World, st: Step)
    requires Reaches(config, begin, steps, w) && Enabled(w, st) && WorldFits(config, w)
    requires w.session.Some? && !w.session.value.out.closed
    ensures var w' := Next(config, w, st);
            && w'.session.Some?
            && var o' := w'.session.value.out;
               var cause := Cause(w.session.value, st.event, o'.ledger.refused != []);
               && EndedBy(cause, o') && Reacted(cause, w'.client)
               && (o'.ledger.refused != [] ==> Overflowed(o'))
  {
    hide After, Validated, WorldInv, Reason, EndedBy, Overflowed, Callback, React, EngineReady, Healthy;
    var s := w.session.value;
    RunKeeps(config, begin, steps, w);
    OpenIsLive(config, w, s);
    match st.event {
      case ReconnectTimerFired =>
      case StopRequested => StopEnds(config, w, s, st);
      case Delivered(e) => DeliveryEnds(config, w, s, e, st);
    }
  }

  lemma StopEnds(config: RuntimeConfig, w: World, s: Session, st: Step)
    requires Live(w, s) && st.event.StopRequested? && Enabled(w, st) && WorldFits(config, w)
    ensures var w' := Next(config, w, st);
            w'.session.Some? && EndedBy(Some(Stopped), w'.session.value.out) && Reacted(Some(Stopped), w'.client)
            && w'.session.value.out.ledger.refused == []
  {
    hide BackoffSeconds;
  }

  lemma ReasonIsNotStopped(s: Session, e: SessionEvent, refused: bool)
    ensures Reason(s, e, refused) != Some(Stopped)
  {
    if e.BytesRead? && Pushed(s.buffer, e.bytes).1.Ok? {
      FirstIsNotStopped(Pushed(s.buffer, e.bytes).1.value);
    }
  }

  lemma {:induction false} FirstIsNotStopped(lines: seq<string>)
    ensures FirstVerdict(lines) != Some(Stopped)
  {
    hide LineVerdict;
    if lines != [] {
      LineVerdictIsNotStopped(lines[0]);
      FirstIsNotStopped(lines[1..]);
    }
  }

  lemma DeliveryEnds(config: RuntimeConfig, w: World, s: Session, e: SessionEvent, st: Step)
    requires Validated(config) && WorldInv(config, w) && Live(w, s) && w.now <= st.now
    requires Deliverable(w, e, st.now) && WorldFits(config, w)
    ensures var w' := SessionStep(config, w, e, st);
            && w'.session.Some?
            && var o' := w'.session.value.out;
               var reason := Reason(s, e, o'.ledger.refused != []);
               && EndedBy(reason, o') && Reacted(reason, w'.client)
               && (o'.ledger.refused != [] ==> Overflowed(o'))
  {
    hide Validated, Inv, Running, Dialing, Reason, EndedBy, Overflowed, Callback, React, EngineReady, Healthy, OneAtATime,
      Reported, Reacted;
    SessionLater(config, s, w.now, st.now);
    OpenEngine(config, s, w.dialing, st.now);
    CallbackEnds(config, s, e, st.now);
    var s' := Callback(config, s, e, st.now);
    var reason := Reason(s, e, s'.out.ledger.refused != []);
    ReasonIsNotStopped(s, e, s'.out.ledger.refused != []);
    CallbackReacts(w, s, s', st, reason);
  }
}
