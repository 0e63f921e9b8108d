/** What a session says: the system messages it offers are its greeting and the PONGs of
    the PINGs it read, in order. */
module SessionTraffic {
  import opened Basics
  import opened Framing
  import opened IrcMessages
  import opened RateLimits
  import opened Configuration
  import opened Protocol
  import opened Automation
  import opened Scheduler
  import opened SchedulerInvariants
  import opened SchedulerTheorems
  import opened Sessions
  import opened SessionInvariants

  /** The lines of the system messages, in order. */
  function SystemLines(q: seq<Outbound>): seq<string> {
    if q == [] then []
    else SystemLines(q[..|q| - 1]) + (if q[|q| - 1].kind.System? then [q[|q| - 1].wireData] else [])
  }

  /** The system lines among the sends of a batch. */
  function SystemSends(actions: seq<Action>): seq<string> {
    if actions == [] then []
    else
      (if actions[0].Send? && actions[0].kind.System? then [actions[0].data] else []) + SystemSends(actions[1..])
  }

  /** The answer a line asks for. */
  function PongOf(line: string): seq<string> {
    match ParseLine(line)
    case None => []
    case Some(m) => if m.command == "PING" && m.parameters != [] then ["PONG :" + m.parameters[0] + "\r\n"] else []
  }

  function PongsOf(lines: seq<string>): seq<string> {
    if lines == [] then [] else PongOf(lines[0]) + PongsOf(lines[1..])
  }

  function Said(s: Session): seq<string> {
    SystemLines(s.out.ledger.offered)
  }

  lemma SendSays(s: Session, line: string, kind: Kind, channel: string, due: Time, now: Time)
    requires !s.out.closed
    ensures Said(SendLine(s, line, kind, channel, due, now)) == Said(s) + (if kind.System? then [line] else [])
  {
    hide Offer;
    OfferedGrows(s.out, line, kind, channel, due, now);
    var m := Outbound(line, kind, channel, due, s.out.nextSequence);
    assert (s.out.ledger.offered + [m])[..|s.out.ledger.offered|] == s.out.ledger.offered;
  }

  /** A batch that is cut short by closing sends a prefix. */
  lemma {:induction false} ActionsSay(s: Session, actions: seq<Action>, now: Time)
    requires !s.out.closed
    ensures Said(ApplyActions(s, actions, now)) <= Said(s) + SystemSends(actions)
    ensures !ApplyActions(s, actions, now).out.closed ==>
              Said(ApplyActions(s, actions, now)) == Said(s) + SystemSends(actions)
    decreases |actions|
  {
    hide SendLine, SystemLines;
    assert Said(s) + [] == Said(s);
    if actions != [] {
      var a := actions[0];
      var sent := if a.Send? && a.kind.System? then [a.data] else [];
      assert Said(s) + (sent + SystemSends(actions[1..])) == Said(s) + sent + SystemSends(actions[1..]);
      assert Said(s) + sent == if sent == [] then Said(s) else Said(s) + sent;
      if a.Send? {
        SendSays(s, a.data, a.kind, a.channel, now, now);
      }
      var s' := ApplyAction(s, a, now);
      if !s'.out.closed {
        ActionsSay(s', actions[1..], now);
      }
    }
  }

  lemma SilentSays(s: Session, s': Session)
    requires Silent(s, s')
    ensures Said(s') == Said(s)
  {
  }

  lemma {:induction false} ChatsSayNothing(s: Session, chats: seq<Scheduled>, now: Time)
    ensures Said(SendChats(s, chats, now)) == Said(s)
    decreases |chats|
  {
    hide SendLine, Said, MakePrivmsg, Silent;
    if s.out.closed {
      ClosedSendsNoChats(s, chats, now);
      SilentSays(s, SendChats(s, chats, now));
    } else if chats != [] {
      var line := MakePrivmsg(chats[0].channel, chats[0].text);
      if line.Ok? {
        SendSays(s, line.value, Chat, chats[0].channel, chats[0].due, now);
      }
      ChatsSayNothing(
        if line.Thrown? then s else SendLine(s, line.value, Chat, chats[0].channel, chats[0].due, now), chats[1..], now);
    }
  }

  lemma {:induction false} SystemSendsConcat(a: seq<Action>, b: seq<Action>)
    ensures SystemSends(a + b) == SystemSends(a) + SystemSends(b)
  {
    if a == [] {
      assert a + b == b;
    } else {
      assert (a + b)[1..] == a[1..] + b;
      SystemSendsConcat(a[1..], b);
    }
  }

  lemma {:induction false} JoinsSayNothing(channels: seq<string>)
    requires JoinActions(channels).Ok?
    ensures SystemSends(JoinActions(channels).value) == []
  {
    hide EncodeIrcLine;
    if channels != [] {
      var n := |channels| - 1;
      JoinsSayNothing(channels[..n]);
      var join := Send(EncodeIrcLine("JOIN #" + channels[n]).value, Join, channels[n]);
      SystemSendsConcat(JoinActions(channels[..n]).value, [join]);
      assert |[join][1..]| == 0;
    }
  }

  lemma HandledSays(config: RuntimeConfig, p: Negotiation, m: IrcMessage)
    requires AfterHandle(config, p, m).1.Ok?
    ensures var pong := if m.command == "PING" && m.parameters != [] then ["PONG :" + m.parameters[0] + "\r\n"] else [];
            SystemSends(AfterHandle(config, p, m).1.value) == pong
  {
    hide JoinActions, AckAll, Tokens, IsLoginFailure;
    var actions := AfterHandle(config, p, m).1.value;
    if actions != [] && actions[0].BecameReady? {
      JoinsSayNothing(config.channels);
      assert actions[1..] == JoinActions(config.channels).value;
    } else if actions != [] {
      assert |actions[1..]| == 0;
    }
  }

  /** One line asks for at most its answer, and gets it unless the session closes first. */
  lemma LineSays(config: RuntimeConfig, s: Session, line: string, now: Time)
    requires Fits(config, s) && !s.out.closed
    ensures var (s', ok) := HandleLine(config, s, line, now);
            && Said(s') <= Said(s) + PongOf(line)
            && (ok && !s'.out.closed ==> Said(s') == Said(s) + PongOf(line))
  {
    hide ParseLine, AfterHandle, AfterEvent, ApplyActions, SendChats, SystemLines, SystemSends;
    if ParseLine(line).Some? {
      var m := ParseLine(line).value;
      var (negotiation, actions) := AfterHandle(config, s.negotiation, m);
      var s1 := s.(negotiation := negotiation);
      if actions.Ok? {
        HandledSays(config, s.negotiation, m);
        ActionsSay(s1, actions.value, now);
        ApplyKeepsFields(s1, actions.value, now);
        var s2 := ApplyActions(s1, actions.value, now);
        var (engine, chats) := AfterEvent(config.bot, s2.engine, m, now);
        if chats.Ok? {
          var s3 := s2.(engine := engine);
          ChatsProgress(s3, chats.value, now);
          ChatsSayNothing(s3, chats.value, now);
        }
      }
    }
  }

  lemma {:induction false} LinesSay(config: RuntimeConfig, s: Session, lines: seq<string>, now: Time)
    requires Fits(config, s) && !s.out.closed
    ensures var (s', ok) := HandleLines(config, s, lines, now);
            && Said(s') <= Said(s) + PongsOf(lines)
            && (ok && !s'.out.closed ==> Said(s') == Said(s) + PongsOf(lines))
            && s'.buffer == s.buffer
    decreases |lines|
  {
    hide HandleLine, Said, PongOf;
    if lines != [] {
      var (s', ok) := HandleLine(config, s, lines[0], now);
      LineSays(config, s, lines[0], now);
      HandleLineFits(config, s, lines[0], now);
      assert Said(s) + PongsOf(lines) == Said(s) + PongOf(lines[0]) + PongsOf(lines[1..]);
      if ok && !s'.out.closed {
        LinesSay(config, s', lines[1..], now);
      }
    }
  }

  /** The lines that a read completes; none if the assembler throws. */
  function LinesIn(buffer: string, bytes: string): seq<string> {
    var lines := Pushed(buffer, bytes).1;
    if lines.Ok? then lines.value else []
  }

  /** The system messages that a read offers are a prefix of the PONGs of the PINGs among
      its lines, in the order in which these arrived; all of them if the session stays open. */
  lemma ReadAnswersPings(config: RuntimeConfig, s: Session, bytes: string, now: Time)
    requires Fits(config, s) && !s.out.closed
    ensures var s' := OnRead(config, s, bytes, now);
            && Said(s') <= Said(s) + PongsOf(LinesIn(s.buffer, bytes))
            && (!s'.out.closed ==>
                  && Pushed(s.buffer, bytes) == (s'.buffer, Ok(LinesIn(s.buffer, bytes)))
                  && Said(s') == Said(s) + PongsOf(LinesIn(s.buffer, bytes)))
  {
    hide Pushed, HandleLines, Said, PongsOf;
    var (buffer, lines) := Pushed(s.buffer, bytes);
    var s1 := s.(buffer := buffer);
    SameSaid(s, s1);
    if lines.Thrown? {
      SameSaid(s1, Close(s1, NetworkError));
    } else {
      LinesSay(config, s1, lines.value, now);
      var s2 := HandleLines(config, s1, lines.value, now).0;
      SameSaid(s2, Close(s2, NetworkError));
    }
  }

  lemma SameSaid(s: Session, s': Session)
    requires s'.out.ledger.offered == s.out.ledger.offered
    ensures Said(s') == Said(s)
  {
  }

  /** A closed session answers nothing. */
  lemma ClosedSaysNothing(config: RuntimeConfig, s: Session, bytes: string, now: Time)
    requires Fits(config, s) && s.out.closed
    ensures Said(OnRead(config, s, bytes, now)) == Said(s) && OnRead(config, s, bytes, now).out.closed
  {
    hide OnRead, HandleLine, HandleLines, Pushed;
    ClosedReadIsSilent(config, s, bytes, now);
    SilentSays(s, OnRead(config, s, bytes, now));
  }

  /** After the handshake an open session has said exactly the greeting. */
  lemma HandshakeSays(config: RuntimeConfig, s: Session, now: Time)
    requires Validated(config) && Dialing(config, s, now)
    ensures Said(OnHandshake(config, s, now)) == if s.out.closed then [] else Hello(config)
  {
    hide Validated, Inv, OnHandshake, EngineReady;
    HandshakeKeeps(config, s, now);
    var q := OnHandshake(config, s, now).out.ledger.offered;
    if !s.out.closed {
      assert Leads(Hello(config), q);
      assert SystemLines(q[..3]) == Hello(config) by {
        assert q[..3][..2] == q[..2] && q[..2][..1] == q[..1] && q[..1][..0] == [];
        assert SystemLines(q[..1]) == [Hello(config)[0]];
        assert SystemLines(q[..2]) == [Hello(config)[0], Hello(config)[1]];
      }
      assert q[..3] == q;
    }
  }

  lemma {:induction false} PongsConcat(a: seq<string>, b: seq<string>)
    ensures PongsOf(a + b) == PongsOf(a) + PongsOf(b)
  {
    hide PongOf;
    if a == [] {
      assert a + b == b;
    } else {
      assert (a + b)[1..] == a[1..] + b;
      PongsConcat(a[1..], b);
    }
  }

  lemma {:induction false} SystemLinesOf(q: seq<Outbound>)
    ensures SystemLines(q) == SystemLines(SystemOf(q))
  {
    if q != [] {
      var front, last := q[..|q| - 1], q[|q| - 1];
      SystemLinesOf(front);
      assert SystemOf(front) + [] == SystemOf(front) && SystemLines(front) + [] == SystemLines(front);
      if last.kind.System? {
        assert (SystemOf(front) + [last])[..|SystemOf(front)|] == SystemOf(front);
      }
    }
  }

  lemma {:induction false} SystemLinesPrefix(a: seq<Outbound>, b: seq<Outbound>)
    requires a <= b
    ensures SystemLines(a) <= SystemLines(b)
    decreases |b|
  {
    if |a| < |b| {
      SystemLinesPrefix(a, b[..|b| - 1]);
    } else {
      assert a == b;
    }
  }

  /** The system lines on the wire are, in order, the first of those the session said. */
  lemma SaidInOrder(s: Session, now: Time)
    requires Inv(s.out, now)
    ensures SystemLines(Started(s.out)) <= Said(s)
  {
    hide Inv, SystemLines, SystemOf, Started;
    SystemMessagesInOrder(s.out, now);
    SystemLinesOf(Started(s.out));
    SystemLinesOf(s.out.ledger.offered);
    SystemLinesPrefix(SystemOf(Started(s.out)), SystemOf(s.out.ledger.offered));
  }
}
