/** The client with its sessions as one state machine over events, for an arbitrary
    server, network and clock that never goes back. */
module ClientRuns {
  import opened Basics
  import opened Framing
  import opened RateLimits
  import opened RateWindows
  import opened Configuration
  import opened Scheduler
  import opened SchedulerInvariants
  import opened Sessions
  import opened SessionInvariants
  import opened Clients

  /** `session` is the latest session, open or closed; `dialing` and `reading` say that
      the handler of its connection attempt or of a read has not run yet; `connections`
      counts the sessions made. */
  datatype World = World(
    now: Time,
    client: Client,
    session: Option<Session>,
    dialing: bool,
    reading: bool,
    connections: nat)

  datatype Event =
    | ReconnectTimerFired
    | StopRequested
    | Delivered(e: SessionEvent)

  /** One callback at one instant; the jitter is used if it schedules a reconnect. */
  datatype Step = Step(event: Event, now: Time, jitter: nat)

  function Begin(now: Time): World {
    World(now, AfterSchedule(NEW_CLIENT, 0, now), None, false, false, 0)
  }

  predicate TimerDue(timer: Option<Time>, now: Time) {
    timer.Some? && timer.value <= now
  }

  /** No handler of the latest session is outstanding. */
  predicate Drained(w: World) {
    w.session.Some? ==> !w.dialing && !w.reading && !w.session.value.out.ledger.ioPending
  }

  /** When a handler of the latest session can run. A timer fires no earlier than its
      deadline; a handler that was queued before its timer was cancelled may still run. */
  predicate Deliverable(w: World, e: SessionEvent, now: Time) {
    && w.session.Some?
    && var s := w.session.value;
       match e
       case HandshakeDone => w.dialing
       case DialFailed => w.dialing
       case BytesRead(bytes) => w.reading && |bytes| <= READ_BUFFER_BYTES
       case ReadFailed => w.reading
       case AuthTimerFired => TimerDue(s.authTimer, now)
       case StaleAuthTimer => !w.dialing && s.authTimer.None?
       case WriteTimerFired => TimerDue(s.out.writeTimer, now)
       case StaleWakeUp => true
       case WriteDone => s.out.ledger.ioPending && s.out.currentWrite.Some?
       case WriteFailed => s.out.ledger.ioPending
  }

  /** When an event can happen. A new session is made only after the pending handlers of the
      closed one have run. */
  predicate Enabled(w: World, st: Step) {
    && w.now <= st.now
    && st.jitter <= MAX_JITTER
    && match st.event
       case ReconnectTimerFired => TimerDue(w.client.reconnectTimer, st.now) && Drained(w)
       case StopRequested => true
       case Delivered(e) => Deliverable(w, e, st.now)
  }

  predicate WorldFits(config: RuntimeConfig, w: World) {
    w.session.Some? ==> Fits(config, w.session.value)
  }

  function LimitsOf(w: World): Limits {
    if w.session.Some? then w.session.value.out.limits else FRESH_LIMITS
  }

  /** The session after a callback, and the client after its handler calls. */
  function OnSession(w: World, s: Session, st: Step): World
    requires w.session.Some?
  {
    w.(now := st.now, session := Some(s), client := React(w.client, w.session.value, s, st.jitter, st.now))
  }

  function SessionStep(config: RuntimeConfig, w: World, e: SessionEvent, st: Step): World
    requires Deliverable(w, e, st.now) && WorldFits(config, w)
  {
    var s' := Callback(config, w.session.value, e, st.now);
    OnSession(w, s', st).(
      dialing := w.dialing && !e.HandshakeDone? && !e.DialFailed?,
      reading := if e.HandshakeDone? || e.BytesRead? then !s'.out.closed else w.reading && !e.ReadFailed?)
  }

  function Next(config: RuntimeConfig, w: World, st: Step): World
    requires Enabled(w, st) && WorldFits(config, w)
  {
    match st.event
    case ReconnectTimerFired =>
      var client := w.client.(reconnectTimer := None);
      if w.client.stopping then w.(now := st.now, client := client)
      else
        World(st.now, client.(connected := true), Some(NewSession(config, LimitsOf(w))), true, false, w.connections + 1)
    case StopRequested =>
      if w.client.stopping then w.(now := st.now)
      else
        var client := w.client.(stopping := true, reconnectTimer := None);
        if !w.client.connected || w.session.None? then w.(now := st.now, client := client)
        else
          var w' := OnSession(w.(client := client), Close(w.session.value, Stopped), st);
          w'.(client := w'.client.(connected := false))
    case Delivered(e) => SessionStep(config, w, e, st)
  }

  // ---------------------------------------------------------------------------
  // The invariant
  // ---------------------------------------------------------------------------

  /** Unless it is stopping, the client has exactly one open session or armed reconnect. */
  ghost predicate OneAtATime(c: Client) {
    && (c.connected ==> c.reconnectTimer.None?)
    && (c.stopping ==> !c.connected && c.reconnectTimer.None?)
    && (!c.stopping ==> c.connected || c.reconnectTimer.Some?)
  }

  ghost predicate Reported(c: Client, s: Session) {
    && (c.connected <==> !s.out.closed)
    && (c.exitCode == if s.out.ledger.ended == [Fatal] then 1 else 0)
    && (s.out.ledger.ended == [Fatal] || s.out.ledger.ended == [Stopped] ==> c.stopping)
  }

  ghost predicate WorldInv(config: RuntimeConfig, w: World) {
    && OneAtATime(w.client)
    && match w.session
       case None => !w.client.connected && w.client.exitCode == 0 && w.connections == 0
       case Some(s) =>
         && Reported(w.client, s)
         && (if w.dialing then !w.reading && Dialing(config, s, w.now) else Running(config, s, w.now))
  }

  lemma InvFits(config: RuntimeConfig, w: World)
    requires WorldInv(config, w)
    ensures WorldFits(config, w)
  {
    hide Inv, Greeted, Gated;
  }

  lemma InvEnds(o: Outbox, now: Time)
    requires Inv(o, now)
    ensures if o.closed then |o.ledger.ended| == 1 else o.ledger.ended == []
  {
    hide Armed, Core;
    CoreModes(o, now);
  }

  lemma ReactKeeps(c: Client, s: Session, s': Session, st: Step)
    requires OneAtATime(c) && Reported(c, s) && Progress(s.out, s'.out)
    requires Inv(s.out, st.now)
    ensures var c' := React(c, s, s', st.jitter, st.now);
            OneAtATime(c') && Reported(c', s')
  {
    hide BackoffSeconds, Inv;
    InvEnds(s.out, st.now);
    if !s.out.closed && s'.out.closed {
      assert s'.out.ledger.ended[0] != Stopped;
      assert s'.out.ledger.ended == [s'.out.ledger.ended[0]];
    }
  }

  // ---------------------------------------------------------------------------
  // Every step
  // ---------------------------------------------------------------------------

  lemma RunningInv(config: RuntimeConfig, s: Session, now: Time)
    ensures Dialing(config, s, now) || Running(config, s, now) ==> Inv(s.out, now)
  {
    hide Inv, Greeted, Gated, EngineReady, Buffered;
  }

  /** A callback that keeps its session keeps the world. */
  lemma OnSessionKeeps(config: RuntimeConfig, w: World, s': Session, st: Step, w': World)
    requires w.session.Some? && OneAtATime(w.client) && Reported(w.client, w.session.value)
    requires Inv(w.session.value.out, st.now) && Progress(w.session.value.out, s'.out)
    requires w' == OnSession(w, s', st).(dialing := w'.dialing, reading := w'.reading)
    requires if w'.dialing then !w'.reading && Dialing(config, s', st.now) else Running(config, s', st.now)
    ensures WorldInv(config, w')
  {
    hide Inv, Dialing, Running, Progress, OneAtATime, Reported, React;
    ReactKeeps(w.client, w.session.value, s', st);
  }

  lemma OutStepKeeps(config: RuntimeConfig, w: World, out: Outbox, st: Step)
    requires WorldInv(config, w) && w.session.Some? && w.now <= st.now
    requires Inv(out, st.now) && Progress(w.session.value.out, out)
    requires out.ledger.offered == w.session.value.out.ledger.offered
    ensures WorldInv(config, OnSession(w, WithOut(w.session.value, out), st))
  {
    hide Inv, Dialing, Running, Progress, OneAtATime, Reported, React, WithOut;
    var s := w.session.value;
    var s' := WithOut(s, out);
    SessionLater(config, s, w.now, st.now);
    RunningInv(config, s, st.now);
    assert s.out.closed ==> out.closed by { ProgressCloses(s.out, out); }
    WithOutIs(s, out);
    if w.dialing {
      OutKeepsDialing(config, s, out, st.now);
    } else {
      OutKeeps(config, s, out, st.now);
    }
    OnSessionKeeps(config, w, s', st, OnSession(w, s', st));
  }

  lemma ProgressCloses(o: Outbox, o': Outbox)
    requires Progress(o, o')
    ensures o.closed ==> o'.closed
  {
  }

  lemma WithOutIs(s: Session, out: Outbox)
    ensures WithOut(s, out).out == out
  {
  }

  lemma DialingMayEnd(config: RuntimeConfig, s: Session, reason: EndReason, now: Time)
    requires Validated(config) && Dialing(config, s, now)
    ensures Running(config, Close(s, reason), now)
  {
    hide Inv, Validated;
    FinishKeeps(s.out, reason, now);
    NewEngineReady(config);
  }

  lemma CloseRunning(config: RuntimeConfig, s: Session, reason: EndReason, now: Time)
    requires Running(config, s, now)
    ensures Running(config, Close(s, reason), now)
  {
    hide Inv, Greeted, Gated, EngineReady;
    CloseKeeps(config, s, reason, now);
  }

  lemma AuthTimeoutKeeps(config: RuntimeConfig, s: Session, now: Time)
    requires Running(config, s, now)
    ensures Running(config, OnAuthTimeout(s), now)
  {
    hide Inv, Greeted, EngineReady, Close;
    var s1 := s.(authTimer := None);
    GreetedSame(config, s, s1);
    if !s.negotiation.state.Ready? {
      CloseRunning(config, s, Fatal, now);
      ClosingCancels(s, Fatal);
    }
  }

  lemma TimeoutProgress(s: Session)
    ensures Progress(s.out, OnAuthTimeout(s).out)
  {
    hide Close, Progress;
    NoProgress(s.out);
    CloseProgress(s.(authTimer := None), Fatal);
  }

  /** Whatever a callback does, it forgets no record and ends the session at most once. */
  lemma CallbackProgress(config: RuntimeConfig, s: Session, e: SessionEvent, now: Time)
    requires Fits(config, s) && (e.WriteDone? ==> s.out.currentWrite.Some?)
    ensures Progress(s.out, Callback(config, s, e, now).out)
  {
    hide Progress, OnRead, OnHandshake, OnAuthTimeout, OnWriteDone, OnWriteFailed, OnTimer, ScheduleWrite, Close;
    match e {
      case HandshakeDone => HandshakeProgress(config, s, now);
      case DialFailed => CloseProgress(s, NetworkError);
      case BytesRead(bytes) => ReadProgress(config, s, bytes, now);
      case ReadFailed => CloseProgress(s, NetworkError);
      case AuthTimerFired => TimeoutProgress(s);
      case StaleAuthTimer => TimeoutProgress(s);
      case WriteTimerFired => TimerProgress(s.out, now);
      case StaleWakeUp => ScheduleProgress(s.out, now);
      case WriteDone => DoneProgress(s.out, now);
      case WriteFailed => FailedProgress(s.out);
    }
  }

  lemma ClosingCancels(s: Session, reason: EndReason)
    ensures !s.out.closed ==> Close(s.(authTimer := None), reason) == Close(s, reason)
    ensures s.out.closed ==> Close(s.(authTimer := None), reason) == s.(authTimer := None)
  {
  }

  lemma DialingUntimed(config: RuntimeConfig, s: Session, now: Time)
    ensures Dialing(config, s, now) ==> s.authTimer.None?
  {
  }

  lemma StepKeepsSession(config: RuntimeConfig, w: World, e: SessionEvent, st: Step)
    requires Validated(config) && WorldInv(config, w) && w.now <= st.now
    requires Deliverable(w, e, st.now) && WorldFits(config, w)
    ensures WorldInv(config, SessionStep(config, w, e, st))
  {
    hide Validated, Inv, Dialing, Running, Progress, OneAtATime, Reported, OnRead, OnHandshake, OnAuthTimeout, React,
      OnWriteDone, OnWriteFailed, ScheduleWrite, Close, Enqueue;
    var s := w.session.value;
    var w' := SessionStep(config, w, e, st);
    SessionLater(config, s, w.now, st.now);
    RunningInv(config, s, st.now);
    CallbackProgress(config, s, e, st.now);
    match e {
      case HandshakeDone =>
        HandshakeKeeps(config, s, st.now);
        OnSessionKeeps(config, w, OnHandshake(config, s, st.now), st, w');
      case DialFailed =>
        DialingMayEnd(config, s, NetworkError, st.now);
        OnSessionKeeps(config, w, Close(s, NetworkError), st, w');
      case BytesRead(bytes) =>
        assert !w.dialing;
        ReadKeeps(config, s, bytes, st.now);
        OnSessionKeeps(config, w, OnRead(config, s, bytes, st.now), st, w');
      case ReadFailed =>
        assert !w.dialing;
        CloseRunning(config, s, NetworkError, st.now);
        OnSessionKeeps(config, w, Close(s, NetworkError), st, w');
      case AuthTimerFired =>
        assert !w.dialing by { DialingUntimed(config, s, st.now); }
        AuthTimeoutKeeps(config, s, st.now);
        OnSessionKeeps(config, w, OnAuthTimeout(s), st, w');
      case StaleAuthTimer =>
        AuthTimeoutKeeps(config, s, st.now);
        OnSessionKeeps(config, w, OnAuthTimeout(s), st, w');
      case WriteTimerFired =>
        TimerKeeps(s.out, st.now);
        TimerProgress(s.out, st.now);
        OutStepKeeps(config, w, OnTimer(s.out, st.now), st);
      case StaleWakeUp =>
        StaleWakeKeeps(s.out, st.now);
        ScheduleProgress(s.out, st.now);
        OutStepKeeps(config, w, ScheduleWrite(s.out, st.now), st);
      case WriteDone =>
        WriteDoneKeeps(s.out, st.now);
        DoneProgress(s.out, st.now);
        OutStepKeeps(config, w, OnWriteDone(s.out, st.now), st);
      case WriteFailed =>
        WriteFailedKeeps(s.out, st.now);
        FailedProgress(s.out);
        OutStepKeeps(config, w, OnWriteFailed(s.out), st);
    }
  }

  lemma ReconnectKeeps(config: RuntimeConfig, w: World, st: Step)
    requires Validated(config) && WorldInv(config, w) && Enabled(w, st) && WorldFits(config, w)
    requires st.event.ReconnectTimerFired?
    ensures WorldInv(config, Next(config, w, st))
  {
    hide Validated, Inv, Faithful, Disciplined, Running;
    var l := LimitsOf(w);
    assert Faithful(l, st.now) && Disciplined(l.history) by { LimitsSound(config, w, st.now); }
    FreshKeeps(l, st.now);
  }

  lemma LimitsSound(config: RuntimeConfig, w: World, now: Time)
    requires WorldInv(config, w) && w.now <= now
    ensures Faithful(LimitsOf(w), now) && Disciplined(LimitsOf(w).history)
  {
    hide Faithful, Disciplined, Inv, Running, Dialing, OneAtATime, Reported;
    if w.session.Some? {
      var s := w.session.value;
      SessionLater(config, s, w.now, now);
      RunningInv(config, s, now);
      InvLimits(s.out, now);
    } else {
      FreshLimitsSound(now);
    }
  }

  lemma InvLimits(o: Outbox, now: Time)
    requires Inv(o, now)
    ensures Faithful(o.limits, now) && Disciplined(o.limits.history)
  {
    hide Balanced, Numbered, Order, SystemFifo, Faithful, Disciplined, RecordsWritten, InFlight, Armed;
  }

  lemma FreshLimitsSound(now: Time)
    ensures Faithful(FRESH_LIMITS, now) && Disciplined(FRESH_LIMITS.history)
  {
    assert forall c :: On([], c) == [];
  }

  lemma StopKeeps(config: RuntimeConfig, w: World, st: Step)
    requires Validated(config) && WorldInv(config, w) && Enabled(w, st) && WorldFits(config, w)
    requires st.event.StopRequested?
    ensures WorldInv(config, Next(config, w, st))
  {
    hide Validated, Inv, Dialing, Running;
    if w.session.Some? {
      var s := w.session.value;
      SessionLater(config, s, w.now, st.now);
      RunningInv(config, s, st.now);
      InvEnds(s.out, st.now);
      if w.dialing {
        StopDialing(config, s, st.now);
      } else {
        CloseRunning(config, s, Stopped, st.now);
      }
    }
  }

  lemma StopDialing(config: RuntimeConfig, s: Session, now: Time)
    requires Dialing(config, s, now)
    ensures Dialing(config, Close(s, Stopped), now)
  {
    hide Inv;
    FinishKeeps(s.out, Stopped, now);
  }

  lemma NextKeeps(config: RuntimeConfig, w: World, st: Step)
    requires Validated(config) && WorldInv(config, w) && Enabled(w, st) && WorldFits(config, w)
    ensures WorldInv(config, Next(config, w, st))
  {
    hide Validated, WorldInv, SessionStep;
    match st.event {
      case ReconnectTimerFired => ReconnectKeeps(config, w, st);
      case StopRequested => StopKeeps(config, w, st);
      case Delivered(e) => StepKeepsSession(config, w, e, st);
    }
  }

  // ---------------------------------------------------------------------------
  // Runs
  // ---------------------------------------------------------------------------

  /** The world after the steps, if each of them can happen when it does. */
  function After(config: RuntimeConfig, begin: Time, steps: seq<Step>): Option<World> {
    if steps == [] then Some(Begin(begin))
    else
      var n := |steps| - 1;
      match After(config, begin, steps[..n])
      case None => None
      case Some(w) => if Enabled(w, steps[n]) && WorldFits(config, w) then Some(Next(config, w, steps[n])) else None
  }

  ghost predicate Reaches(config: RuntimeConfig, begin: Time, steps: seq<Step>, w: World) {
    Validated(config) && After(config, begin, steps) == Some(w)
  }

  lemma {:induction false} RunKeeps(config: RuntimeConfig, begin: Time, steps: seq<Step>, w: World)
    requires Reaches(config, begin, steps, w)
    ensures WorldInv(config, w)
  {
    hide Validated, Next, Enabled, Running, Dialing, Reported;
    if steps != [] {
      var n := |steps| - 1;
      var before := After(config, begin, steps[..n]).value;
      RunKeeps(config, begin, steps[..n], before);
      NextKeeps(config, before, steps[n]);
    }
  }

  /** Being able to happen never depends on the shape of the automation state. */
  lemma RunFits(config: RuntimeConfig, begin: Time, steps: seq<Step>, w: World, st: Step)
    requires Reaches(config, begin, steps, w) && Enabled(w, st)
    ensures After(config, begin, steps + [st]).Some?
  {
    hide Validated, Next, Enabled, WorldInv, WorldFits;
    RunKeeps(config, begin, steps, w);
    InvFits(config, w);
    assert (steps + [st])[..|steps|] == steps;
  }

  lemma RunLimits(config: RuntimeConfig, begin: Time, steps: seq<Step>, w: World)
    requires Reaches(config, begin, steps, w)
    ensures Faithful(LimitsOf(w), w.now) && Disciplined(LimitsOf(w).history)
  {
    hide Reaches, WorldInv, Faithful, Disciplined;
    RunKeeps(config, begin, steps, w);
    LimitsSound(config, w, w.now);
  }

  lemma RunOut(config: RuntimeConfig, begin: Time, steps: seq<Step>, w: World)
    requires Reaches(config, begin, steps, w) && w.session.Some?
    ensures Inv(w.session.value.out, w.now)
  {
    hide Reaches, Inv, Running, Dialing, OneAtATime, Reported;
    RunKeeps(config, begin, steps, w);
    RunningInv(config, w.session.value, w.now);
  }

  /** The handshake of the latest session. */
  function HandshakeAt(steps: seq<Step>): Time {
    if steps == [] then 0
    else
      var last := steps[|steps| - 1];
      if last.event == Delivered(HandshakeDone) then last.now else HandshakeAt(steps[..|steps| - 1])
  }
}
