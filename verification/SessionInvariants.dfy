/** What every callback of a session keeps, against an arbitrary server. */
module SessionInvariants {
  import opened Basics
  import opened Framing
  import opened IrcText
  import opened IrcMessages
  import opened IrcRoundTrip
  import opened RateLimits
  import opened Configuration
  import opened Protocol
  import opened Readiness
  import opened Automation
  import opened Cooldowns
  import opened Scheduler
  import opened SchedulerInvariants
  import opened Sessions

  /** The lines every session starts with. */
  function Hello(config: RuntimeConfig): seq<string> {
    ["PASS " + config.oauthToken + "\r\n",
     "NICK " + config.username + "\r\n",
     "CAP REQ :twitch.tv/membership twitch.tv/tags twitch.tv/commands" + "\r\n"]
  }

  ghost predicate Leads(hello: seq<string>, offered: seq<Outbound>) {
    && |offered| >= |hello|
    && forall i | 0 <= i < |hello| :: offered[i].kind.System? && offered[i].wireData == hello[i]
  }

  /** The session greeted the server first, or was closed before it could. */
  ghost predicate Greeted(config: RuntimeConfig, s: Session) {
    Leads(Hello(config), s.out.ledger.offered) || (s.out.closed && s.out.ledger.offered == [])
  }

  ghost predicate OnlySystem(offered: seq<Outbound>) {
    forall i | 0 <= i < |offered| :: offered[i].kind.System?
  }

  /** JOIN and chat lines were enqueued only after readiness was reached in this session. */
  ghost predicate Gated(s: Session) {
    && (s.readyCalls == 0 ==> OnlySystem(s.out.ledger.offered))
  }

  ghost predicate EngineReady(config: RuntimeConfig, e: Engine) {
    && |e.ruleLastSent| == |config.bot.messageRules|
    && (config.bot.hype.enabled ==> forall k :: IndexFor(e, k) < |MessagesOf(config.bot, k)|)
  }

  ghost predicate Buffered(s: Session) {
    !s.out.closed ==> |s.buffer| <= MAX_LINE_BYTES && CrlfFree(s.buffer)
  }

  /** An open session has its authentication deadline armed exactly until it is ready. */
  ghost predicate Deadlined(s: Session) {
    !s.out.closed ==> (s.authTimer.Some? <==> s.readyCalls == 0)
  }

  /** What holds while a line is being handled. */
  ghost predicate Handling(config: RuntimeConfig, s: Session, now: Time) {
    && Inv(s.out, now)
    && Greeted(config, s)
    && Gated(s)
    && Deadlined(s)
    && EngineReady(config, s.engine)
  }

  ghost predicate Running(config: RuntimeConfig, s: Session, now: Time) {
    && Handling(config, s, now)
    && (s.negotiation.state.Ready? ==> s.readyCalls > 0)
    && Buffered(s)
  }

  /** A session whose connection is still being made. */
  ghost predicate Dialing(config: RuntimeConfig, s: Session, now: Time) {
    && Inv(s.out, now)
    && s.negotiation == NEW_NEGOTIATION && s.readyCalls == 0 && s.buffer == ""
    && s.out.ledger.offered == [] && s.engine == NewEngine(config.bot) && s.authTimer.None?
  }

  // ---------------------------------------------------------------------------
  // Single steps
  // ---------------------------------------------------------------------------

  lemma OfferedGrows(o: Outbox, line: string, kind: Kind, channel: string, due: Time, now: Time)
    ensures var o' := Offer(o, line, kind, channel, due, now);
            && (o.closed ==> o'.ledger.offered == o.ledger.offered && o'.closed)
            && (!o.closed ==>
                  o'.ledger.offered == o.ledger.offered + [Outbound(line, kind, channel, due, o.nextSequence)])
  {
    hide Best, ReadyAt, AskAll;
  }

  lemma SendKeeps(config: RuntimeConfig, s: Session, line: string, kind: Kind, channel: string, due: Time, now: Time)
    requires Handling(config, s, now)
    requires if kind.System? then due <= now else s.readyCalls > 0
    ensures Handling(config, SendLine(s, line, kind, channel, due, now), now)
  {
    hide Inv, Offer, Hello, EngineReady;
    OfferKeeps(s.out, line, kind, channel, due, now);
    OfferedGrows(s.out, line, kind, channel, due, now);
  }

  lemma CloseKeeps(config: RuntimeConfig, s: Session, reason: EndReason, now: Time)
    requires Handling(config, s, now)
    ensures Handling(config, Close(s, reason), now)
    ensures Close(s, reason).out.closed && Close(s, reason).readyCalls == s.readyCalls
  {
    hide Inv, Hello, EngineReady;
    FinishKeeps(s.out, reason, now);
  }

  /** A JOIN is only sent behind a ready action of the same batch. */
  ghost predicate Guarded(actions: seq<Action>, ready: bool) {
    if actions == [] then true
    else
      && (actions[0].Send? ==> actions[0].kind.System? || ready)
      && Guarded(actions[1..], ready || actions[0].BecameReady?)
  }

  lemma {:induction false} ReadyIsGuarded(actions: seq<Action>)
    ensures Guarded(actions, true)
  {
    if actions != [] {
      ReadyIsGuarded(actions[1..]);
    }
  }

  lemma HandledIsGuarded(config: RuntimeConfig, p: Negotiation, m: IrcMessage, ready: bool)
    requires p.state.Ready? ==> ready
    ensures var (p', actions) := AfterHandle(config, p, m);
            actions.Ok? ==>
              && Guarded(actions.value, ready)
              && (p'.state.Ready? ==> ready || (actions.value != [] && actions.value[0].BecameReady?))
  {
    hide JoinActions, AckAll, Tokens, IsLoginFailure, EncodeIrcLine;
    var (p', actions) := AfterHandle(config, p, m);
    if actions.Ok? && actions.value != [] {
      ReadyIsGuarded(actions.value[1..]);
      if !actions.value[0].BecameReady? {
        assert actions.value[1..] == [];
      }
    }
  }

  lemma {:induction false} ApplyKeeps(config: RuntimeConfig, s: Session, actions: seq<Action>, now: Time)
    requires Handling(config, s, now) && Guarded(actions, s.readyCalls > 0)
    ensures Handling(config, ApplyActions(s, actions, now), now)
    ensures ApplyActions(s, actions, now).readyCalls >= s.readyCalls
    ensures actions != [] && actions[0].BecameReady? ==> ApplyActions(s, actions, now).readyCalls > 0
    decreases |actions|
  {
    hide Inv, Greeted, EngineReady, SendLine, Close;
    if actions != [] {
      var a := actions[0];
      var s' := ApplyAction(s, a, now);
      match a {
        case Send(data, kind, channel) =>
          SendKeeps(config, s, data, kind, channel, now, now);
          SendKeepsCalls(s, data, kind, channel, now, now);
        case BecameReady =>
          assert Greeted(config, s') by { GreetedSame(config, s, s'); }
        case Reconnect => CloseKeeps(config, s, EndReason.ReconnectRequested, now);
        case GiveUp => CloseKeeps(config, s, Fatal, now);
      }
      if !s'.out.closed {
        ApplyKeeps(config, s', actions[1..], now);
      }
    }
  }

  lemma SendKeepsCalls(s: Session, line: string, kind: Kind, channel: string, due: Time, now: Time)
    ensures var s' := SendLine(s, line, kind, channel, due, now); s'.readyCalls == s.readyCalls && s'.buffer == s.buffer
  {
  }

  lemma GreetedSame(config: RuntimeConfig, s: Session, s': Session)
    requires Greeted(config, s) && s'.out == s.out
    ensures Greeted(config, s')
  {
  }

  lemma {:induction false} ChatsKeep(config: RuntimeConfig, s: Session, chats: seq<Scheduled>, now: Time)
    requires Handling(config, s, now) && (chats == [] || s.readyCalls > 0)
    ensures Handling(config, SendChats(s, chats, now), now)
    decreases |chats|
  {
    hide Handling, SendLine, MakePrivmsg;
    if chats != [] {
      var line := MakePrivmsg(chats[0].channel, chats[0].text);
      if line.Thrown? {
        ChatsKeep(config, s, chats[1..], now);
      } else {
        SendKeeps(config, s, line.value, Chat, chats[0].channel, chats[0].due, now);
        SendKeepsCalls(s, line.value, Chat, chats[0].channel, chats[0].due, now);
        ChatsKeep(config, SendLine(s, line.value, Chat, chats[0].channel, chats[0].due, now), chats[1..], now);
      }
    }
  }

  lemma EventKeepsEngine(config: RuntimeConfig, e: Engine, m: IrcMessage, now: Time)
    requires Validated(config) && EngineReady(config, e)
    ensures EngineReady(config, AfterEvent(config.bot, e, m, now).0)
    ensures AfterEvent(config.bot, e, m, now).1.Ok?
  {
    hide AfterEvent, ValidToken, ValidNames, ValidLogin;
    EventFits(config.bot, e, m, now);
    HypeStep(config.bot, e, Event(m, now), Gift);
  }

  // ---------------------------------------------------------------------------
  // One line
  // ---------------------------------------------------------------------------

  /** The only lines whose handling throws: PINGs that cannot be answered. */
  predicate Unanswerable(line: string) {
    ParseLine(line).Some?
    && var m := ParseLine(line).value;
       m.command == "PING" && m.parameters != [] && EncodeIrcLine("PONG :" + m.parameters[0]).Thrown?
  }

  lemma HandleThrows(config: RuntimeConfig, p: Negotiation, m: IrcMessage)
    requires Validated(config)
    ensures AfterHandle(config, p, m).1.Thrown?
            <==> m.command == "PING" && m.parameters != [] && EncodeIrcLine("PONG :" + m.parameters[0]).Thrown?
  {
    hide JoinActions, AckAll, Tokens, IsLoginFailure, EncodeIrcLine, ValidNames, ValidToken, ValidSettings;
    ValidNamesJoin(config.channels);
  }

  /** Handling a line keeps everything, and throws exactly at unanswerable PINGs. */
  lemma LineKeeps(config: RuntimeConfig, s: Session, line: string, now: Time)
    requires Validated(config) && Handling(config, s, now)
    requires s.negotiation.state.Ready? ==> s.readyCalls > 0
    ensures var (s', ok) := HandleLine(config, s, line, now);
            && Handling(config, s', now)
            && (s'.negotiation.state.Ready? ==> s'.readyCalls > 0)
            && (ok <==> !Unanswerable(line))
            && s'.buffer == s.buffer
  {
    hide Validated, AfterHandle, AfterEvent, ParseLine, ApplyActions, SendChats, Inv, Greeted, EncodeIrcLine, Guarded;
    HandleLineFits(config, s, line, now);
    if ParseLine(line).Some? {
      var m := ParseLine(line).value;
      var (negotiation, actions) := AfterHandle(config, s.negotiation, m);
      var s1 := s.(negotiation := negotiation);
      assert Greeted(config, s1) by { GreetedSame(config, s, s1); }
      HandleThrows(config, s.negotiation, m);
      if actions.Ok? {
        HandledIsGuarded(config, s.negotiation, m, s.readyCalls > 0);
        ApplyKeeps(config, s1, actions.value, now);
        ApplyKeepsFields(s1, actions.value, now);
        var s2 := ApplyActions(s1, actions.value, now);
        if !(s2.out.closed && actions.value != []) && negotiation.state.Ready? {
          EventKeepsEngine(config, s2.engine, m, now);
          var s3 := s2.(engine := AfterEvent(config.bot, s2.engine, m, now).0);
          assert Greeted(config, s3) by { GreetedSame(config, s2, s3); }
          assert s3.readyCalls > 0 by { StillNothing(s1, actions.value, now); }
          ChatsKeep(config, s3, AfterEvent(config.bot, s2.engine, m, now).1.value, now);
          SendChatsKeepsFields(s3, AfterEvent(config.bot, s2.engine, m, now).1.value, now);
        }
      } else {
        assert !HandleLine(config, s, line, now).1;
        NotReadyAfterThrow(config, s.negotiation, m);
      }
    }
  }

  lemma StillNothing(s: Session, actions: seq<Action>, now: Time)
    ensures actions == [] ==> ApplyActions(s, actions, now) == s
  {
  }

  lemma NotReadyAfterThrow(config: RuntimeConfig, p: Negotiation, m: IrcMessage)
    requires Validated(config) && AfterHandle(config, p, m).1.Thrown?
    ensures AfterHandle(config, p, m).0 == p
  {
    hide Validated, JoinActions, AckAll, Tokens, IsLoginFailure, EncodeIrcLine;
    HandleThrows(config, p, m);
  }

  // ---------------------------------------------------------------------------
  // A read
  // ---------------------------------------------------------------------------

  lemma {:induction false} LinesKeep(config: RuntimeConfig, s: Session, lines: seq<string>, now: Time)
    requires Validated(config) && Handling(config, s, now)
    requires s.negotiation.state.Ready? ==> s.readyCalls > 0
    ensures var (s', ok) := HandleLines(config, s, lines, now);
            && Handling(config, s', now)
            && (s'.negotiation.state.Ready? ==> s'.readyCalls > 0)
            && (!ok ==> exists i :: 0 <= i < |lines| && Unanswerable(lines[i]))
            && s'.buffer == s.buffer
    decreases |lines|
  {
    hide Validated, HandleLine, Unanswerable, Inv, Greeted, Gated, EngineReady;
    if lines != [] {
      HandlingFits(config, s, now);
      LineKeeps(config, s, lines[0], now);
      var (s', ok) := HandleLine(config, s, lines[0], now);
      if ok && !s'.out.closed {
        LinesKeep(config, s', lines[1..], now);
      }
    }
  }

  lemma HandlingFits(config: RuntimeConfig, s: Session, now: Time)
    requires Handling(config, s, now)
    ensures Fits(config, s)
  {
    hide Inv, Greeted;
  }

  lemma PushedIsShort(buffer: string, bytes: string)
    requires Pushed(buffer, bytes).1.Ok?
    ensures |Pushed(buffer, bytes).0| <= MAX_LINE_BYTES && CrlfFree(Pushed(buffer, bytes).0)
  {
    hide Cut, Split, CrlfFree;
    CutIsSplit(buffer + bytes);
    JoinInvertsSplit(buffer + bytes);
  }

  lemma WithBuffer(config: RuntimeConfig, s: Session, buffer: string, now: Time)
    requires Handling(config, s, now)
    ensures Handling(config, s.(buffer := buffer), now)
  {
    hide Inv, Hello, EngineReady;
  }

  /** A read keeps everything. */
  lemma ReadKeeps(config: RuntimeConfig, s: Session, bytes: string, now: Time)
    requires Validated(config) && Running(config, s, now)
    ensures Running(config, OnRead(config, s, bytes, now), now)
  {
    hide Validated, Handling, HandleLines, Pushed, CrlfFree;
    var (buffer, lines) := Pushed(s.buffer, bytes);
    var s1 := s.(buffer := buffer);
    WithBuffer(config, s, buffer, now);
    if lines.Thrown? {
      CloseKeeps(config, s1, NetworkError, now);
    } else {
      PushedIsShort(s.buffer, bytes);
      LinesKeep(config, s1, lines.value, now);
      HandlingFits(config, s1, now);
      var (s2, ok) := HandleLines(config, s1, lines.value, now);
      if !ok {
        CloseKeeps(config, s2, NetworkError, now);
      }
    }
  }

  // ---------------------------------------------------------------------------
  // After closing
  // ---------------------------------------------------------------------------

  /** Nothing that a closed session still does reaches the wire or the end handler. */
  ghost predicate Silent(s: Session, s': Session) {
    && s'.out.closed
    && s'.out == s.out.(nextSequence := s'.out.nextSequence)
    && s'.out.nextSequence >= s.out.nextSequence
  }

  lemma {:induction false} ClosedApplies(s: Session, actions: seq<Action>, now: Time)
    requires s.out.closed
    ensures Silent(s, ApplyActions(s, actions, now)) && Silent(s, ApplyAll(s, actions, now))
    decreases |actions|
  {
    hide Best, ReadyAt, AskAll;
    if actions != [] {
      ClosedApplies(ApplyAction(s, actions[0], now), actions[1..], now);
    }
  }

  lemma {:induction false} ClosedSendsNoChats(s: Session, chats: seq<Scheduled>, now: Time)
    requires s.out.closed
    ensures Silent(s, SendChats(s, chats, now))
    decreases |chats|
  {
    hide Best, ReadyAt, AskAll, MakePrivmsg;
    if chats != [] {
      var line := MakePrivmsg(chats[0].channel, chats[0].text);
      ClosedSendsNoChats(
        if line.Thrown? then s else SendLine(s, line.value, Chat, chats[0].channel, chats[0].due, now), chats[1..], now);
    }
  }

  lemma ClosedLineIsSilent(config: RuntimeConfig, s: Session, line: string, now: Time)
    requires Fits(config, s) && s.out.closed
    ensures Silent(s, HandleLine(config, s, line, now).0)
  {
    hide ParseLine, AfterHandle, AfterEvent, ApplyActions, SendChats;
    if ParseLine(line).Some? {
      var m := ParseLine(line).value;
      var (negotiation, actions) := AfterHandle(config, s.negotiation, m);
      var s1 := s.(negotiation := negotiation);
      if actions.Ok? {
        ClosedApplies(s1, actions.value, now);
        ApplyKeepsFields(s1, actions.value, now);
        var s2 := ApplyActions(s1, actions.value, now);
        var (engine, chats) := AfterEvent(config.bot, s2.engine, m, now);
        if chats.Ok? {
          ClosedSendsNoChats(s2.(engine := engine), chats.value, now);
        }
      }
    }
  }

  /** A read that had already completed when the session closed handles at most its first
      line, sends nothing and reports no second end. */
  lemma ClosedReadIsSilent(config: RuntimeConfig, s: Session, bytes: string, now: Time)
    requires Fits(config, s) && s.out.closed
    ensures Silent(s, OnRead(config, s, bytes, now))
    ensures var (buffer, lines) := Pushed(s.buffer, bytes);
            lines.Ok? ==>
              var s1 := s.(buffer := buffer);
              HandleLines(config, s1, lines.value, now)
              == if lines.value == [] then (s1, true) else HandleLine(config, s1, lines.value[0], now)
  {
    hide HandleLine, Pushed;
    var (buffer, lines) := Pushed(s.buffer, bytes);
    var s1 := s.(buffer := buffer);
    if lines.Ok? && lines.value != [] {
      ClosedLineIsSilent(config, s1, lines.value[0], now);
      HandleLineFits(config, s1, lines.value[0], now);
    }
  }

  /** How many lines the loop handles before an exception or the closed flag ends it. */
  function HandledLines(config: RuntimeConfig, s: Session, lines: seq<string>, now: Time): (n: nat)
    requires Fits(config, s)
    ensures n <= |lines| && (n == 0 <==> lines == [])
    decreases |lines|
  {
    if lines == [] then 0
    else
      var (s', ok) := HandleLine(config, s, lines[0], now);
      HandleLineFits(config, s, lines[0], now);
      if !ok || s'.out.closed then 1 else 1 + HandledLines(config, s', lines[1..], now)
  }

  /** A read handles a line at a moment when the session is closed. */
  ghost predicate HandlesAfterClosing(config: RuntimeConfig, s: Session, bytes: string, now: Time)
    requires Fits(config, s)
  {
    var (buffer, lines) := Pushed(s.buffer, bytes);
    var s1 := s.(buffer := buffer);
    lines.Ok? && exists k ::
      && 0 <= k < HandledLines(config, s1, lines.value, now)
      && HandleLines(config, s1, lines.value[..k], now).0.out.closed
  }

  /** Every handled line but the first finds the session open. */
  lemma {:induction false} OpenBetweenLines(config: RuntimeConfig, s: Session, lines: seq<string>, k: nat, now: Time)
    requires Fits(config, s) && k < HandledLines(config, s, lines, now)
    ensures k > 0 ==> !HandleLines(config, s, lines[..k], now).0.out.closed
    decreases |lines|
  {
    hide HandleLine;
    if k > 0 {
      var (s', ok) := HandleLine(config, s, lines[0], now);
      HandleLineFits(config, s, lines[0], now);
      assert lines[..k][0] == lines[0] && lines[..k][1..] == lines[1..][..k - 1];
      NoLines(config, s', now);
      OpenBetweenLines(config, s', lines[1..], k - 1, now);
    }
  }

  lemma NoLines(config: RuntimeConfig, s: Session, now: Time)
    requires Fits(config, s)
    ensures HandleLines(config, s, [], now) == (s, true)
  {
  }

  /** A read handles a line after closing exactly when the session was closed before the
      read and the read completes a line. */
  lemma LateLineExactly(config: RuntimeConfig, s: Session, bytes: string, now: Time)
    requires Fits(config, s)
    ensures HandlesAfterClosing(config, s, bytes, now)
            <==> s.out.closed && Pushed(s.buffer, bytes).1.Ok? && Pushed(s.buffer, bytes).1.value != []
  {
    hide HandleLine, HandleLines, Pushed;
    var (buffer, lines) := Pushed(s.buffer, bytes);
    var s1 := s.(buffer := buffer);
    if lines.Ok? {
      NoLines(config, s1, now);
      assert lines.value[..0] == [];
      forall k | 0 < k < HandledLines(config, s1, lines.value, now)
        ensures !HandleLines(config, s1, lines.value[..k], now).0.out.closed
      {
        OpenBetweenLines(config, s1, lines.value, k, now);
      }
      assert s.out.closed && lines.value != [] ==>
          0 < HandledLines(config, s1, lines.value, now) && HandleLines(config, s1, lines.value[..0], now).0.out.closed;
    }
  }

  /** The read of one PING by a closed session: the answer is numbered, but not offered. */
  lemma LateReadHandlesLine(config: RuntimeConfig, s: Session, now: Time)
    requires Fits(config, s) && s.out.closed && s.buffer == ""
    ensures OnRead(config, s, "PING :x\r\n", now).out.nextSequence == s.out.nextSequence + 1
    ensures HandlesAfterClosing(config, s, "PING :x\r\n", now)
  {
    hide ParseLine, Pushed, AfterEvent, ApplyActions, EncodeIrcLine, AfterHandle, HandlesAfterClosing;
    var line := "PONG :x";
    var ping := "PING :x";
    var m := IrcMessage(map[], "", "PING", ["x"]);
    PingParses();
    PingPushed();
    assert line == "PONG :" + m.parameters[0];
    PingAnswered(config, s.negotiation, m);
    var pong := EncodeIrcLine(line);
    var actions := [Send(pong.value, System, "")];
    assert AfterHandle(config, s.negotiation, m) == (s.negotiation, Ok(actions));
    ClosedSends(s, pong.value, now);
    assert HandleLine(config, s, ping, now).0.out.nextSequence == s.out.nextSequence + 1;
    HandleLineFits(config, s, ping, now);
    LateLineExactly(config, s, "PING :x\r\n", now);
  }

  lemma PingPushed()
    ensures Pushed("", "PING :x\r\n") == ("", Ok(["PING :x"]))
  {
    hide Cut, Split, CrlfFree;
    var ping := "PING :x";
    var bytes := ping + "\r\n";
    EmptyFree();
    SplitWhole("");
    NoBreakIsCrlfFree(ping);
    SplitCons(ping, "");
    assert ping + "\r\n" + "" == bytes && "" + bytes == bytes;
    CutIsSplit(bytes);
    assert Split(bytes) == Frames([ping] + [], "") && [ping] + [] == [ping];
    assert bytes == "PING :x\r\n";
  }

  lemma PingParses()
    ensures ParseLine("PING :x") == Some(IrcMessage(map[], "", "PING", ["x"]))
  {
    hide ParseLine;
    var w := Wire([], None, "PING", [], Some("x"));
    assert Print(w) == "PING :x";
    ParseInvertsPrint(w);
    assert Upper("PING") == "PING";
    assert Meaning(w) == IrcMessage(map[], "", "PING", ["x"]);
  }

  lemma ClosedSends(s: Session, data: string, now: Time)
    requires s.out.closed
    ensures var s' := ApplyActions(s, [Send(data, System, "")], now);
            s'.out.closed && s'.out.nextSequence == s.out.nextSequence + 1
  {
  }

  /** A PING with a parameter is answered by one PONG that is read back with exactly that
      parameter, if the parameter has at most 504 bytes; otherwise handling it throws. */
  lemma PingAnswered(config: RuntimeConfig, p: Negotiation, m: IrcMessage)
    requires m.command == "PING" && m.parameters != [] && !HasLineBreak(m.parameters[0])
    ensures AfterHandle(config, p, m).0 == p
    ensures AfterHandle(config, p, m).1.Ok? <==> |m.parameters[0]| <= 504
    ensures |m.parameters[0]| <= 504 ==>
              var pong := "PONG :" + m.parameters[0];
              && AfterHandle(config, p, m).1 == Ok([Send(pong + "\r\n", System, "")])
              && EncodeIrcLine(pong) == Ok(pong + "\r\n")
              && ParseLine(pong) == Some(IrcMessage(map[], "", "PONG", [m.parameters[0]]))
  {
    hide ParseLine;
    PongReadBack(m.parameters[0]);
  }

  // ---------------------------------------------------------------------------
  // The other callbacks
  // ---------------------------------------------------------------------------

  lemma HelloActions(config: RuntimeConfig, p: Negotiation)
    requires Validated(config) && p.state.Disconnected?
    ensures AfterBegin(config, p).1
            == Ok([Send(Hello(config)[0], System, ""), Send(Hello(config)[1], System, ""), Send(Hello(config)[2], System, "")])
  {
    hide Validated;
    LengthBudget(config, "", "");
    CapReqText();
  }

  /** Three system lines offered to an open session with nothing offered yet. */
  lemma ThreeOffers(o: Outbox, a: string, b: string, c: string, now: Time)
    requires Inv(o, now) && o.ledger.offered == [] && !o.closed
    ensures var o3 := Offer(Offer(Offer(o, a, System, "", now, now), b, System, "", now, now), c, System, "", now, now);
            && Inv(o3, now) && OnlySystem(o3.ledger.offered)
            && Leads([a, b, c], o3.ledger.offered) && |o3.ledger.offered| == 3 && !o3.closed
  {
    hide Inv, Offer;
    var o1 := Offer(o, a, System, "", now, now);
    var o2 := Offer(o1, b, System, "", now, now);
    OfferKeeps(o, a, System, "", now, now);
    OfferKeeps(o1, b, System, "", now, now);
    OfferKeeps(o2, c, System, "", now, now);
    OfferedGrows(o, a, System, "", now, now);
    OfferedGrows(o1, b, System, "", now, now);
    OfferedGrows(o2, c, System, "", now, now);
    StaysOpen(o, a, now);
    StaysOpen(o1, b, now);
    StaysOpen(o2, c, now);
  }

  lemma StaysOpen(o: Outbox, line: string, now: Time)
    requires Inv(o, now) && !o.closed && |o.ledger.offered| < 3
    ensures !Offer(o, line, System, "", now, now).closed
  {
    hide Order, SystemFifo, Paced, Armed, Numbered, Best, ReadyAt, AskAll;
    assert |multiset(o.ledger.offered)| >= |multiset(o.outbound)|;
  }

  lemma {:induction false} ApplyThree(s: Session, a: string, b: string, c: string, now: Time)
    ensures ApplyAll(s, [Send(a, System, ""), Send(b, System, ""), Send(c, System, "")], now)
            == SendLine(SendLine(SendLine(s, a, System, "", now, now), b, System, "", now, now), c, System, "", now, now)
  {
    hide SendLine, ApplyAll;
    var s1 := SendLine(s, a, System, "", now, now);
    var s2 := SendLine(s1, b, System, "", now, now);
    ApplyFirst(s, a, [Send(b, System, ""), Send(c, System, "")], now);
    ApplyFirst(s1, b, [Send(c, System, "")], now);
    ApplyFirst(s2, c, [], now);
    assert [Send(a, System, ""), Send(b, System, ""), Send(c, System, "")]
           == [Send(a, System, "")] + [Send(b, System, ""), Send(c, System, "")];
    assert [Send(b, System, ""), Send(c, System, "")] == [Send(b, System, "")] + [Send(c, System, "")];
    assert [Send(c, System, "")] == [Send(c, System, "")] + [];
    ApplyNone(SendLine(s2, c, System, "", now, now), now);
  }

  lemma ApplyFirst(s: Session, line: string, rest: seq<Action>, now: Time)
    ensures ApplyAll(s, [Send(line, System, "")] + rest, now)
            == ApplyAll(SendLine(s, line, System, "", now, now), rest, now)
  {
    hide SendLine;
    assert ([Send(line, System, "")] + rest)[1..] == rest;
  }

  lemma ApplyNone(s: Session, now: Time)
    ensures ApplyAll(s, [], now) == s
  {
  }

  /** After the handshake the session has greeted the server (or was closed before). */
  lemma HandshakeKeeps(config: RuntimeConfig, s: Session, now: Time)
    requires Validated(config) && Dialing(config, s, now)
    ensures Running(config, OnHandshake(config, s, now), now)
    ensures OnHandshake(config, s, now).readyCalls == 0
    ensures var s' := OnHandshake(config, s, now);
            && s'.buffer == "" && |s'.out.ledger.offered| == (if s.out.closed then 0 else 3)
            && s'.out.closed == s.out.closed
  {
    hide Validated, Inv, Offer, AfterBegin, Hello;
    HelloActions(config, s.negotiation);
    HelloShape(config, s.negotiation);
    var hello := Hello(config);
    var s1 := s.(negotiation := AfterBegin(config, s.negotiation).0);
    ApplyThree(s1, hello[0], hello[1], hello[2], now);
    NewEngineReady(config);
    assert hello == [hello[0], hello[1], hello[2]];
    if s.out.closed {
      ClosedOffers(s.out, hello[0], hello[1], hello[2], now);
    } else {
      ThreeOffers(s.out, hello[0], hello[1], hello[2], now);
    }
  }

  lemma HelloShape(config: RuntimeConfig, p: Negotiation)
    ensures |Hello(config)| == 3
    ensures p.state.Disconnected? ==> !AfterBegin(config, p).0.state.Ready?
  {
  }

  lemma NewEngineReady(config: RuntimeConfig)
    requires Validated(config)
    ensures EngineReady(config, NewEngine(config.bot))
  {
    hide ValidToken, ValidNames, ValidLogin;
    EnabledHasMessages(config.bot);
    assert forall k :: IndexFor(NewEngine(config.bot), k) == 0;
  }

  lemma ClosedOffers(o: Outbox, a: string, b: string, c: string, now: Time)
    requires Inv(o, now) && o.closed
    ensures var o3 := Offer(Offer(Offer(o, a, System, "", now, now), b, System, "", now, now), c, System, "", now, now);
            Inv(o3, now) && o3.ledger.offered == o.ledger.offered && o3.closed
  {
    hide Inv, Offer;
    var o1 := Offer(o, a, System, "", now, now);
    var o2 := Offer(o1, b, System, "", now, now);
    OfferKeeps(o, a, System, "", now, now);
    OfferKeeps(o1, b, System, "", now, now);
    OfferKeeps(o2, c, System, "", now, now);
    OfferedGrows(o, a, System, "", now, now);
    OfferedGrows(o1, b, System, "", now, now);
    OfferedGrows(o2, c, System, "", now, now);
  }

  /** A step of the outbound half that offers nothing keeps the session. */
  lemma OutKeeps(config: RuntimeConfig, s: Session, out: Outbox, now: Time)
    requires Running(config, s, now) && Inv(out, now)
    requires out.ledger.offered == s.out.ledger.offered && (s.out.closed ==> out.closed)
    ensures Running(config, WithOut(s, out), now)
  {
    hide Inv, Hello, EngineReady, CrlfFree;
  }

  lemma OutKeepsDialing(config: RuntimeConfig, s: Session, out: Outbox, now: Time)
    requires Dialing(config, s, now) && Inv(out, now) && out.ledger.offered == s.out.ledger.offered
    ensures Dialing(config, WithOut(s, out), now)
  {
    hide Inv;
  }

  lemma SessionLater(config: RuntimeConfig, s: Session, now: Time, later: Time)
    requires now <= later
    ensures Running(config, s, now) ==> Running(config, s, later)
    ensures Dialing(config, s, now) ==> Dialing(config, s, later)
  {
    hide Inv, Greeted, EngineReady, Buffered, Gated;
    if Inv(s.out, now) {
      InvLater(s.out, now, later);
    }
  }

  // ---------------------------------------------------------------------------
  // How a callback may end a session
  // ---------------------------------------------------------------------------

  /** The end handler is called at most once, exactly when the session closes, and never
      with the reason that is reserved for a stop; recorded writes are not forgotten. */
  ghost predicate Progress(o: Outbox, o': Outbox) {
    && o.limits.history <= o'.limits.history
    && (o.closed ==> o'.closed && o'.ledger.ended == o.ledger.ended)
    && (!o.closed && !o'.closed ==> o'.ledger.ended == o.ledger.ended)
    && (!o.closed && o'.closed ==> o'.ledger.ended != [] && |o'.ledger.ended| == |o.ledger.ended| + 1
                                   && o.ledger.ended <= o'.ledger.ended
                                   && o'.ledger.ended[|o.ledger.ended|] != Stopped)
  }

  lemma ScheduleKeepsHistory(o: Outbox, now: Time)
    ensures ScheduleWrite(o, now).limits.history == o.limits.history
  {
    hide Best, ReadyAt, AskAll;
    AskAllKeepsHistory(o.limits, o.outbound, now);
  }

  lemma {:induction false} AskAllKeepsHistory(l: Limits, q: seq<Outbound>, now: Time)
    ensures AskAll(l, q, now).history == l.history
  {
    if q != [] {
      AskAllKeepsHistory(l, q[..|q| - 1], now);
    }
  }

  lemma OfferProgress(o: Outbox, line: string, kind: Kind, channel: string, due: Time, now: Time)
    ensures Progress(o, Offer(o, line, kind, channel, due, now))
  {
    hide Best, ReadyAt, AskAll, ScheduleWrite;
    var m := Outbound(line, kind, channel, due, o.nextSequence);
    ScheduleProgress(Queued(Numbering(o), m), now);
  }

  lemma CloseProgress(s: Session, reason: EndReason)
    requires reason != Stopped
    ensures Progress(s.out, Close(s, reason).out)
  {
  }

  lemma ScheduleProgress(o: Outbox, now: Time)
    ensures Progress(o, ScheduleWrite(o, now)) && ScheduleWrite(o, now).ledger.offered == o.ledger.offered
  {
    hide Best, ReadyAt, AskAll;
    ScheduleKeepsHistory(o, now);
  }

  lemma TimerProgress(o: Outbox, now: Time)
    ensures Progress(o, OnTimer(o, now)) && OnTimer(o, now).ledger.offered == o.ledger.offered
  {
    hide ScheduleWrite;
    ScheduleProgress(o.(writeTimer := None), now);
  }

  lemma DoneProgress(o: Outbox, now: Time)
    requires o.currentWrite.Some?
    ensures Progress(o, OnWriteDone(o, now)) && OnWriteDone(o, now).ledger.offered == o.ledger.offered
    ensures OnWriteDone(o, now).limits.history
            == o.limits.history + [Sent(o.currentWrite.value.kind, o.currentWrite.value.channel, o.ledger.startedAt, now)]
  {
    hide ScheduleWrite;
    ScheduleProgress(Completed(o, now), now);
    ScheduleKeepsHistory(Completed(o, now), now);
  }

  lemma FailedProgress(o: Outbox)
    ensures Progress(o, OnWriteFailed(o)) && OnWriteFailed(o).ledger.offered == o.ledger.offered
  {
  }

  lemma ApplyProgress(s: Session, a: Action, now: Time)
    ensures Progress(s.out, ApplyAction(s, a, now).out)
  {
    hide Offer, Progress, Close;
    match a {
      case Send(data, kind, channel) => OfferProgress(s.out, data, kind, channel, now, now);
      case BecameReady => NoProgress(s.out);
      case Reconnect => CloseProgress(s, EndReason.ReconnectRequested);
      case GiveUp => CloseProgress(s, Fatal);
    }
  }

  lemma NoProgress(o: Outbox)
    ensures Progress(o, o)
  {
  }

  lemma ProgressThen(o: Outbox, o1: Outbox, o2: Outbox)
    requires Progress(o, o1) && Progress(o1, o2)
    ensures Progress(o, o2)
  {
  }

  lemma {:induction false} ActionsProgress(s: Session, actions: seq<Action>, now: Time)
    ensures Progress(s.out, ApplyActions(s, actions, now).out)
    ensures Progress(s.out, ApplyAll(s, actions, now).out)
    decreases |actions|
  {
    hide Progress, ApplyAction;
    NoProgress(s.out);
    if actions != [] {
      var s' := ApplyAction(s, actions[0], now);
      ApplyProgress(s, actions[0], now);
      ActionsProgress(s', actions[1..], now);
      ProgressThen(s.out, s'.out, ApplyActions(s', actions[1..], now).out);
      ProgressThen(s.out, s'.out, ApplyAll(s', actions[1..], now).out);
    }
  }

  lemma {:induction false} ChatsProgress(s: Session, chats: seq<Scheduled>, now: Time)
    ensures Progress(s.out, SendChats(s, chats, now).out)
    decreases |chats|
  {
    hide Progress, Offer, MakePrivmsg;
    NoProgress(s.out);
    if chats != [] {
      var line := MakePrivmsg(chats[0].channel, chats[0].text);
      var s' := if line.Thrown? then s else SendLine(s, line.value, Chat, chats[0].channel, chats[0].due, now);
      if line.Ok? {
        OfferProgress(s.out, line.value, Chat, chats[0].channel, chats[0].due, now);
      }
      ChatsProgress(s', chats[1..], now);
      ProgressThen(s.out, s'.out, SendChats(s', chats[1..], now).out);
    }
  }

  lemma LineProgress(config: RuntimeConfig, s: Session, line: string, now: Time)
    requires Fits(config, s)
    ensures Progress(s.out, HandleLine(config, s, line, now).0.out)
  {
    hide Progress, ParseLine, AfterHandle, AfterEvent, ApplyActions, SendChats;
    NoProgress(s.out);
    if ParseLine(line).Some? {
      var m := ParseLine(line).value;
      var (negotiation, actions) := AfterHandle(config, s.negotiation, m);
      var s1 := s.(negotiation := negotiation);
      if actions.Ok? {
        ActionsProgress(s1, actions.value, now);
        ApplyKeepsFields(s1, actions.value, now);
        var s2 := ApplyActions(s1, actions.value, now);
        var (engine, chats) := AfterEvent(config.bot, s2.engine, m, now);
        if chats.Ok? {
          var s3 := s2.(engine := engine);
          ChatsProgress(s3, chats.value, now);
          ProgressThen(s.out, s3.out, SendChats(s3, chats.value, now).out);
        }
      }
    }
  }

  lemma {:induction false} LinesProgress(config: RuntimeConfig, s: Session, lines: seq<string>, now: Time)
    requires Fits(config, s)
    ensures Progress(s.out, HandleLines(config, s, lines, now).0.out)
    decreases |lines|
  {
    hide Progress, HandleLine;
    NoProgress(s.out);
    if lines != [] {
      var (s', ok) := HandleLine(config, s, lines[0], now);
      LineProgress(config, s, lines[0], now);
      HandleLineFits(config, s, lines[0], now);
      if ok && !s'.out.closed {
        LinesProgress(config, s', lines[1..], now);
        ProgressThen(s.out, s'.out, HandleLines(config, s', lines[1..], now).0.out);
      }
    }
  }

  lemma ReadProgress(config: RuntimeConfig, s: Session, bytes: string, now: Time)
    requires Fits(config, s)
    ensures Progress(s.out, OnRead(config, s, bytes, now).out)
  {
    hide Progress, Pushed, HandleLines, Close;
    var (buffer, lines) := Pushed(s.buffer, bytes);
    var s1 := s.(buffer := buffer);
    if lines.Thrown? {
      CloseProgress(s1, NetworkError);
    } else {
      LinesProgress(config, s1, lines.value, now);
      var (s2, ok) := HandleLines(config, s1, lines.value, now);
      CloseProgress(s2, NetworkError);
      ProgressThen(s.out, s2.out, Close(s2, NetworkError).out);
    }
  }

  lemma HandshakeProgress(config: RuntimeConfig, s: Session, now: Time)
    ensures Progress(s.out, OnHandshake(config, s, now).out)
  {
    hide Progress, AfterBegin, ApplyAll;
    NoProgress(s.out);
    var (negotiation, actions) := AfterBegin(config, s.negotiation);
    if actions.Ok? {
      ActionsProgress(s.(negotiation := negotiation), actions.value, now);
    }
  }
}
