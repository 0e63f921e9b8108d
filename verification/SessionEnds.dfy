/** Why a session ends: from what arrives to the reason that is reported, both ways. */
module SessionEnds {
  import opened Basics
  import opened Framing
  import opened IrcText
  import opened IrcMessages
  import opened IrcRoundTrip
  import opened RateLimits
  import opened Configuration
  import opened Protocol
  import opened Automation
  import opened Scheduler
  import opened SchedulerInvariants
  import opened Sessions
  import opened SessionInvariants
  import opened Verdicts

  /** A protocol message found 1000 messages waiting and closed the session. */
  ghost predicate Overflowed(o: Outbox) {
    && |o.ledger.refused| == 1 && !o.ledger.refused[0].kind.Chat? && |o.outbound| >= 1_000
    && o.closed && o.ledger.ended == [NetworkError]
  }

  /** Open so far, and no message refused. */
  ghost predicate Healthy(o: Outbox) {
    !o.closed && o.ledger.ended == [] && o.ledger.refused == []
  }

  lemma SendEnds(s: Session, line: string, kind: Kind, channel: string, due: Time, now: Time)
    requires Healthy(s.out)
    ensures var o' := SendLine(s, line, kind, channel, due, now).out;
            if |s.out.outbound| >= 1_000 && !kind.Chat? then Overflowed(o') else Healthy(o')
  {
    hide Best, ReadyAt, AskAll;
  }

  lemma {:induction false} PlainActionsEnd(s: Session, actions: seq<Action>, now: Time)
    requires Healthy(s.out) && Plain(actions)
    ensures var o' := ApplyActions(s, actions, now).out; Healthy(o') || (Overflowed(o') && actions != [])
    decreases |actions|
  {
    hide SendLine, Overflowed;
    if actions != [] {
      var a := actions[0];
      if a.Send? {
        SendEnds(s, a.data, a.kind, a.channel, now, now);
      }
      var s' := ApplyAction(s, a, now);
      OverflowCloses(s'.out);
      if !s'.out.closed {
        PlainActionsEnd(s', actions[1..], now);
      }
    }
  }

  lemma OverflowCloses(o: Outbox)
    ensures Overflowed(o) ==> o.closed
  {
  }

  lemma {:induction false} ChatsEnd(s: Session, chats: seq<Scheduled>, now: Time)
    requires Healthy(s.out)
    ensures Healthy(SendChats(s, chats, now).out)
    decreases |chats|
  {
    hide SendLine, MakePrivmsg, Healthy;
    if chats != [] {
      var line := MakePrivmsg(chats[0].channel, chats[0].text);
      if line.Ok? {
        SendEnds(s, line.value, Chat, chats[0].channel, chats[0].due, now);
      }
      ChatsEnd(if line.Thrown? then s else SendLine(s, line.value, Chat, chats[0].channel, chats[0].due, now), chats[1..], now);
    }
  }

  /** The only action of a batch that ends the session. */
  lemma LastActionEnds(s: Session, a: Action, now: Time)
    requires Healthy(s.out) && (a.Reconnect? || a.GiveUp?)
    ensures var o' := ApplyActions(s, [a], now).out;
            o'.closed && o'.ledger.refused == []
            && o'.ledger.ended == [if a.Reconnect? then EndReason.ReconnectRequested else Fatal]
  {
    assert [a][1..] == [];
  }

  /** What a line in itself asks for; a line that is no message asks for nothing. */
  ghost function LineVerdict(line: string): Option<EndReason> {
    if ParseLine(line).None? then None else Verdict(ParseLine(line).value)
  }

  /** The state after a line or several that ask for this verdict: an unanswerable PING
      leaves by an exception, and a full queue comes before any other reason. */
  ghost predicate EndsWith(verdict: Option<EndReason>, o: Outbox, ok: bool) {
    if o.ledger.refused != [] then ok && Overflowed(o)
    else
      match verdict
      case None => ok && Healthy(o)
      case Some(NetworkError) => !ok && Healthy(o)
      case Some(reason) => ok && o.closed && o.ledger.ended == [reason]
  }

  lemma ParsedIsClean(line: string)
    ensures ParseLine(line).Some? && ParseLine(line).value.parameters != [] ==>
              !HasLineBreak(ParseLine(line).value.parameters[0])
  {
    hide ParseLine, HasLineBreak, Print;
    if ParseLine(line).Some? {
      var w := AcceptedIsWellFormed(line);
      WireIsClean(w);
    }
  }

  lemma WireIsClean(w: Wire)
    requires WellFormed(w)
    ensures Meaning(w).parameters != [] ==> !HasLineBreak(Meaning(w).parameters[0])
  {
    hide HasLineBreak;
    if w.middle != [] {
      assert GoodMiddle(w.middle[0]);
    }
  }

  lemma LineEnds(config: RuntimeConfig, s: Session, line: string, now: Time)
    requires Validated(config) && EngineReady(config, s.engine) && Healthy(s.out)
    ensures Fits(config, s)
    ensures var (s', ok) := HandleLine(config, s, line, now); EndsWith(LineVerdict(line), s'.out, ok)
  {
    hide Validated, ParseLine, AfterHandle, AfterEvent, ApplyActions, SendChats, Verdict, Overflowed, Plain;
    if ParseLine(line).Some? {
      var m := ParseLine(line).value;
      ParsedIsClean(line);
      ActionsGiveVerdict(config, s.negotiation, m);
      VerdictIsNotStopped(m);
      var (negotiation, actions) := AfterHandle(config, s.negotiation, m);
      var s1 := s.(negotiation := negotiation);
      if actions.Ok? {
        var s2 := ApplyActions(s1, actions.value, now);
        OverflowCloses(s2.out);
        if Verdict(m).Some? {
          LastActionEnds(s1, actions.value[0], now);
        } else {
          PlainActionsEnd(s1, actions.value, now);
          OverflowRefuses(s2.out);
          ApplyKeepsFields(s1, actions.value, now);
          EventKeepsEngine(config, s2.engine, m, now);
          var (engine, chats) := AfterEvent(config.bot, s2.engine, m, now);
          if Healthy(s2.out) {
            ChatsEnd(s2.(engine := engine), chats.value, now);
          }
        }
      }
    }
  }

  lemma OverflowRefuses(o: Outbox)
    ensures Overflowed(o) ==> o.ledger.refused != []
  {
  }

  lemma VerdictIsNotStopped(m: IrcMessage)
    ensures Verdict(m) != Some(Stopped)
  {
  }

  /** The verdict of the first line that has one. */
  ghost function FirstVerdict(lines: seq<string>): Option<EndReason> {
    if lines == [] then None
    else if LineVerdict(lines[0]).Some? then LineVerdict(lines[0])
    else FirstVerdict(lines[1..])
  }

  lemma {:induction false} LinesEnd(config: RuntimeConfig, s: Session, lines: seq<string>, now: Time)
    requires Validated(config) && EngineReady(config, s.engine) && Healthy(s.out)
    ensures Fits(config, s)
    ensures var (s', ok) := HandleLines(config, s, lines, now); EndsWith(FirstVerdict(lines), s'.out, ok)
    decreases |lines|
  {
    hide Validated, HandleLine, LineVerdict, EngineReady, Overflowed;
    EngineFits(config, s);
    if lines != [] {
      LineEnds(config, s, lines[0], now);
      LineVerdictIsNotStopped(lines[0]);
      var (s', ok) := HandleLine(config, s, lines[0], now);
      HandleLineFits(config, s, lines[0], now);
      LineKeepsEngine(config, s, lines[0], now);
      OverflowCloses(s'.out);
      if ok && !s'.out.closed {
        LinesEnd(config, s', lines[1..], now);
      }
    }
  }

  lemma EngineFits(config: RuntimeConfig, s: Session)
    requires EngineReady(config, s.engine)
    ensures Fits(config, s)
  {
  }

  lemma LineVerdictIsNotStopped(line: string)
    ensures LineVerdict(line) != Some(Stopped)
  {
    hide ParseLine;
  }

  lemma LineKeepsEngine(config: RuntimeConfig, s: Session, line: string, now: Time)
    requires Validated(config) && EngineReady(config, s.engine) && Fits(config, s)
    ensures EngineReady(config, HandleLine(config, s, line, now).0.engine)
  {
    hide Validated, ParseLine, AfterHandle, AfterEvent, ApplyActions, SendChats, EngineReady;
    if ParseLine(line).Some? {
      var m := ParseLine(line).value;
      var (negotiation, actions) := AfterHandle(config, s.negotiation, m);
      var s1 := s.(negotiation := negotiation);
      if actions.Ok? {
        var s2 := ApplyActions(s1, actions.value, now);
        ApplyKeepsFields(s1, actions.value, now);
        EventKeepsEngine(config, s2.engine, m, now);
        var (engine, chats) := AfterEvent(config.bot, s2.engine, m, now);
        SendChatsKeepsFields(s2.(engine := engine), chats.value, now);
      }
    }
  }

  // ---------------------------------------------------------------------------
  // Every callback
  // ---------------------------------------------------------------------------

  /** Why this callback ends an open session, if it does; `refused` tells whether a protocol
      message found the queue full. */
  ghost function Reason(s: Session, e: SessionEvent, refused: bool): Option<EndReason> {
    match e
    case DialFailed => Some(NetworkError)
    case ReadFailed => Some(NetworkError)
    case WriteFailed => Some(NetworkError)
    case AuthTimerFired => if s.negotiation.state.Ready? then None else Some(Fatal)
    case StaleAuthTimer => if s.negotiation.state.Ready? then None else Some(Fatal)
    case BytesRead(bytes) =>
      if Pushed(s.buffer, bytes).1.Thrown? || refused then Some(NetworkError)
      else FirstVerdict(Pushed(s.buffer, bytes).1.value)
    case _ => None
  }

  ghost predicate EndedBy(reason: Option<EndReason>, o: Outbox) {
    if reason.None? then !o.closed && o.ledger.ended == [] else o.closed && o.ledger.ended == [reason.value]
  }

  lemma ReadEnds(config: RuntimeConfig, s: Session, bytes: string, now: Time)
    requires Validated(config) && EngineReady(config, s.engine) && Fits(config, s) && Healthy(s.out)
    ensures var s' := OnRead(config, s, bytes, now);
            && EndedBy(Reason(s, BytesRead(bytes), s'.out.ledger.refused != []), s'.out)
            && (s'.out.ledger.refused != [] ==> Overflowed(s'.out))
  {
    hide Validated, Pushed, HandleLines, FirstVerdict, EngineReady, Overflowed;
    var (buffer, lines) := Pushed(s.buffer, bytes);
    var s1 := s.(buffer := buffer);
    if lines.Ok? {
      LinesEnd(config, s1, lines.value, now);
      var s2 := HandleLines(config, s1, lines.value, now).0;
      OverflowCloses(s2.out);
      OverflowEnds(s2.out);
    }
  }

  lemma OverflowEnds(o: Outbox)
    ensures Overflowed(o) ==> o.ledger.ended == [NetworkError]
  {
  }

  /** An open session ends in a callback exactly for the reason given here, and else stays
      open; a refused message means that 1000 messages were waiting. */
  lemma CallbackEnds(config: RuntimeConfig, s: Session, e: SessionEvent, now: Time)
    requires Validated(config) && EngineReady(config, s.engine) && Fits(config, s) && Healthy(s.out)
    requires e.WriteDone? ==> s.out.currentWrite.Some?
    requires e.HandshakeDone? ==> Dialing(config, s, now)
    ensures var s' := Callback(config, s, e, now);
            && EndedBy(Reason(s, e, s'.out.ledger.refused != []), s'.out)
            && (s'.out.ledger.refused != [] ==> Overflowed(s'.out) && e.BytesRead?)
  {
    hide Validated, Inv, OnRead, OnHandshake, Best, ReadyAt, AskAll, Overflowed, FirstVerdict, Pushed, EngineReady;
    match e {
      case HandshakeDone => HandshakeEnds(config, s, now);
      case BytesRead(bytes) => ReadEnds(config, s, bytes, now);
      case _ =>
    }
  }

  lemma HandshakeEnds(config: RuntimeConfig, s: Session, now: Time)
    requires Validated(config) && Dialing(config, s, now) && Healthy(s.out)
    ensures Healthy(OnHandshake(config, s, now).out)
  {
    hide Validated, Inv, SendLine, AfterBegin, Hello;
    HandshakeKeeps(config, s, now);
    HelloActions(config, s.negotiation);
    var hello := Hello(config);
    var s1 := s.(negotiation := AfterBegin(config, s.negotiation).0);
    HelloShape(config, s.negotiation);
    ApplyThree(s1, hello[0], hello[1], hello[2], now);
    var s2 := SendLine(s1, hello[0], System, "", now, now);
    var s3 := SendLine(s2, hello[1], System, "", now, now);
    SendEnds(s1, hello[0], System, "", now, now);
    OverflowCloses(s2.out);
    StillOpen(s2, hello[1], hello[2], now);
    SendEnds(s2, hello[1], System, "", now, now);
    SendEnds(s3, hello[2], System, "", now, now);
  }

  /** A session that is open after two more sends was open before them. */
  lemma StillOpen(s: Session, a: string, b: string, now: Time)
    ensures var s' := SendLine(s, a, System, "", now, now);
            && (s.out.closed ==> s'.out.closed)
            && (s'.out.closed ==> SendLine(s', b, System, "", now, now).out.closed)
  {
    hide Offer, Progress;
    OfferProgress(s.out, a, System, "", now, now);
    var s' := SendLine(s, a, System, "", now, now);
    OfferProgress(s'.out, b, System, "", now, now);
    ClosedStays(s.out, s'.out);
    ClosedStays(s'.out, SendLine(s', b, System, "", now, now).out);
  }

  lemma ClosedStays(o: Outbox, o': Outbox)
    requires Progress(o, o')
    ensures o.closed ==> o'.closed
  {
  }
}
