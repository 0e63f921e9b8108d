/** One session: framing, protocol, automation and the outbound half composed. Each
    function is what one callback of the session does; a callback runs at one instant. */
module Sessions {
  import opened Basics
  import opened Framing
  import opened IrcMessages
  import opened RateLimits
  import opened Configuration
  import opened Protocol
  import opened Automation
  import opened Scheduler

  const AUTH_TIMEOUT: Time := 20 * SECOND

  /** The session object; `readyCalls` counts the calls of the ready handler. */
  datatype Session = Session(
    out: Outbox,
    negotiation: Negotiation,
    engine: Engine,
    buffer: string,
    authTimer: Option<Time>,
    readyCalls: nat)

  function NewSession(config: RuntimeConfig, limits: Limits): Session {
    Session(FreshOutbox(limits), NEW_NEGOTIATION, NewEngine(config.bot), "", None, 0)
  }

  /** Replacing the outbound half; closing it cancels the authentication timer. */
  function WithOut(s: Session, out: Outbox): Session {
    s.(out := out, authTimer := if out.closed && !s.out.closed then None else s.authTimer)
  }

  function Close(s: Session, reason: EndReason): Session {
    WithOut(s, Finish(s.out, reason))
  }

  function SendLine(s: Session, line: string, kind: Kind, channel: string, due: Time, now: Time): Session {
    WithOut(s, Offer(s.out, line, kind, channel, due, now))
  }

  function ApplyAction(s: Session, a: Action, now: Time): Session {
    match a
    case Send(data, kind, channel) => SendLine(s, data, kind, channel, now, now)
    case BecameReady => s.(authTimer := None, readyCalls := s.readyCalls + 1)
    case Reconnect => Close(s, EndReason.ReconnectRequested)
    case GiveUp => Close(s, Fatal)
  }

  /** The loop of handle_line over the actions: it stops when the session is closed. */
  function ApplyActions(s: Session, actions: seq<Action>, now: Time): Session
    decreases |actions|
  {
    if actions == [] then s
    else
      var s' := ApplyAction(s, actions[0], now);
      if s'.out.closed then s' else ApplyActions(s', actions[1..], now)
  }

  /** The loop after the handshake does not look at the closed flag. */
  function ApplyAll(s: Session, actions: seq<Action>, now: Time): Session
    decreases |actions|
  {
    if actions == [] then s else ApplyAll(ApplyAction(s, actions[0], now), actions[1..], now)
  }

  /** Chat that cannot be encoded is skipped. */
  function SendChats(s: Session, chats: seq<Scheduled>, now: Time): Session
    decreases |chats|
  {
    if chats == [] then s
    else
      var line := MakePrivmsg(chats[0].channel, chats[0].text);
      SendChats(if line.Thrown? then s else SendLine(s, line.value, Chat, chats[0].channel, chats[0].due, now),
                chats[1..], now)
  }

  predicate Fits(config: RuntimeConfig, s: Session) {
    |s.engine.ruleLastSent| == |config.bot.messageRules|
  }

  /** One line; the flag is false when the call is left by an exception. */
  function HandleLine(config: RuntimeConfig, s: Session, line: string, now: Time): (Session, bool)
    requires Fits(config, s)
  {
    match ParseLine(line)
    case None => (s, true)
    case Some(m) =>
      var (negotiation, actions) := AfterHandle(config, s.negotiation, m);
      var s1 := s.(negotiation := negotiation);
      if actions.Thrown? then (s1, false)
      else
        var s2 := ApplyActions(s1, actions.value, now);
        if s2.out.closed && actions.value != [] then (s2, true)
        else if !negotiation.state.Ready? then (s2, true)
        else
          ApplyKeepsFields(s1, actions.value, now);
          var (engine, chats) := AfterEvent(config.bot, s2.engine, m, now);
          var s3 := s2.(engine := engine);
          if chats.Thrown? then (s3, false) else (SendChats(s3, chats.value, now), true)
  }

  lemma {:induction false} ApplyKeepsFields(s: Session, actions: seq<Action>, now: Time)
    ensures var s' := ApplyActions(s, actions, now);
            s'.negotiation == s.negotiation && s'.engine == s.engine && s'.buffer == s.buffer
    decreases |actions|
  {
    hide Offer, Finish;
    if actions != [] {
      ApplyKeepsFields(ApplyAction(s, actions[0], now), actions[1..], now);
    }
  }

  lemma {:induction false} SendChatsKeepsFields(s: Session, chats: seq<Scheduled>, now: Time)
    ensures var s' := SendChats(s, chats, now);
            && s'.negotiation == s.negotiation && s'.engine == s.engine && s'.buffer == s.buffer
            && s'.readyCalls == s.readyCalls
    decreases |chats|
  {
    hide Offer, MakePrivmsg;
    if chats != [] {
      var line := MakePrivmsg(chats[0].channel, chats[0].text);
      SendChatsKeepsFields(
        if line.Thrown? then s else SendLine(s, line.value, Chat, chats[0].channel, chats[0].due, now), chats[1..], now);
    }
  }

  lemma HandleLineFits(config: RuntimeConfig, s: Session, line: string, now: Time)
    requires Fits(config, s)
    ensures Fits(config, HandleLine(config, s, line, now).0)
    ensures HandleLine(config, s, line, now).0.buffer == s.buffer
  {
    hide ParseLine, AfterHandle, ApplyActions, SendChats, Responses, AfterUsernotice;
    if ParseLine(line).Some? {
      var m := ParseLine(line).value;
      var (negotiation, actions) := AfterHandle(config, s.negotiation, m);
      if actions.Ok? {
        var s1 := s.(negotiation := negotiation);
        var s2 := ApplyActions(s1, actions.value, now);
        ApplyKeepsFields(s1, actions.value, now);
        var (engine, chats) := AfterEvent(config.bot, s2.engine, m, now);
        assert |engine.ruleLastSent| == |s.engine.ruleLastSent| by { EventFits(config.bot, s2.engine, m, now); }
        if chats.Ok? {
          SendChatsKeepsFields(s2.(engine := engine), chats.value, now);
        }
      }
    }
  }

  lemma EventFits(settings: BotSettings, e: Engine, m: IrcMessage, now: Time)
    requires |settings.messageRules| == |e.ruleLastSent|
    ensures |AfterEvent(settings, e, m, now).0.ruleLastSent| == |e.ruleLastSent|
  {
    hide HypeEvent, Responses, Fires;
  }

  /** The loop of the read handler over the lines. */
  function HandleLines(config: RuntimeConfig, s: Session, lines: seq<string>, now: Time): (Session, bool)
    requires Fits(config, s)
    decreases |lines|
  {
    if lines == [] then (s, true)
    else
      var (s', ok) := HandleLine(config, s, lines[0], now);
      HandleLineFits(config, s, lines[0], now);
      if !ok then (s', false)
      else if s'.out.closed then (s', true)
      else HandleLines(config, s', lines[1..], now)
  }

  /** The read handler without an error. */
  function OnRead(config: RuntimeConfig, s: Session, bytes: string, now: Time): Session
    requires Fits(config, s)
  {
    var (buffer, lines) := Pushed(s.buffer, bytes);
    var s1 := s.(buffer := buffer);
    if lines.Thrown? then Close(s1, NetworkError)
    else
      var (s2, ok) := HandleLines(config, s1, lines.value, now);
      if ok then s2 else Close(s2, NetworkError)
  }

  /** The TLS handshake completed. */
  function OnHandshake(config: RuntimeConfig, s: Session, now: Time): Session {
    var (negotiation, actions) := AfterBegin(config, s.negotiation);
    var s1 := s.(negotiation := negotiation);
    if actions.Thrown? then s1
    else ApplyAll(s1, actions.value, now).(authTimer := Some(now + AUTH_TIMEOUT))
  }

  function OnAuthTimeout(s: Session): Session {
    var s := s.(authTimer := None);
    if s.negotiation.state.Ready? then s else Close(s, Fatal)
  }

  // ---------------------------------------------------------------------------
  // The callbacks as events
  // ---------------------------------------------------------------------------

  /** What the event loop delivers to a session. The two stale events are handlers of a
      timer that was cancelled when they were already queued. */
  datatype SessionEvent =
    | HandshakeDone
    | DialFailed
    | BytesRead(bytes: string)
    | ReadFailed
    | AuthTimerFired
    | StaleAuthTimer
    | WriteTimerFired
    | StaleWakeUp
    | WriteDone
    | WriteFailed

  function Callback(config: RuntimeConfig, s: Session, e: SessionEvent, now: Time): Session
    requires Fits(config, s) && (e.WriteDone? ==> s.out.currentWrite.Some?)
  {
    match e
    case HandshakeDone => OnHandshake(config, s, now)
    case DialFailed => Close(s, NetworkError)
    case BytesRead(bytes) => OnRead(config, s, bytes, now)
    case ReadFailed => Close(s, NetworkError)
    case AuthTimerFired => OnAuthTimeout(s)
    case StaleAuthTimer => OnAuthTimeout(s)
    case WriteTimerFired => WithOut(s, OnTimer(s.out, now))
    case StaleWakeUp => WithOut(s, ScheduleWrite(s.out, now))
    case WriteDone => WithOut(s, OnWriteDone(s.out, now))
    case WriteFailed => WithOut(s, OnWriteFailed(s.out))
  }
}
