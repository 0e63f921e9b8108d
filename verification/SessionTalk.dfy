/** Everything a session says in answer to what it hears: PONGs, the JOINs of a ready batch,
    and the bot's responses, with their channels and due times. */
module SessionTalk {
  import opened Basics
  import opened IrcText
  import opened IrcMessages
  import opened RateLimits
  import opened Configuration
  import opened Protocol
  import opened Readiness
  import opened Automation
  import opened Cooldowns
  import opened Scheduler
  import opened Sessions
  import opened SessionInvariants
  import opened SessionEnds

  /** A message that the session offers to its queue. */
  datatype Utterance = Utterance(wireData: string, kind: Kind, channel: string, due: Time)

  function Uttered(q: seq<Outbound>): seq<Utterance> {
    if q == [] then []
    else
      var m := q[|q| - 1];
      Uttered(q[..|q| - 1]) + [Utterance(m.wireData, m.kind, m.channel, m.due)]
  }

  function Talk(s: Session): seq<Utterance> {
    Uttered(s.out.ledger.offered)
  }

  // ---------------------------------------------------------------------------
  // What a message asks the session to say
  // ---------------------------------------------------------------------------

  /** The answer to a PING. */
  function Pong(m: IrcMessage, now: Time): seq<Utterance> {
    if m.command == "PING" && m.parameters != [] then [Utterance("PONG :" + m.parameters[0] + "\r\n", System, "", now)]
    else []
  }

  function Joins(channels: seq<string>, now: Time): seq<Utterance> {
    seq(|channels|, i requires 0 <= i < |channels| => Utterance("JOIN #" + channels[i] + "\r\n", Join, channels[i], now))
  }

  function Privmsgs(chats: seq<Scheduled>): seq<Utterance> {
    seq(|chats|, i requires 0 <= i < |chats| =>
      Utterance("PRIVMSG #" + chats[i].channel + " :" + chats[i].text + "\r\n", Chat, chats[i].channel, chats[i].due))
  }

  /** The bot's responses: of the rules that fire, or the next hype message of the kind
      that a notice asks for. */
  function BotAnswers(settings: BotSettings, e: Engine, ev: Event): seq<Scheduled>
    requires |settings.messageRules| == |e.ruleLastSent|
  {
    if ev.message.command == "PRIVMSG" then Responses(settings, e, |settings.messageRules|, ev.message, ev.now)
    else
      match HypeResponse(settings, e, ev)
      case None => []
      case Some(kind) =>
        if IndexFor(e, kind) < |MessagesOf(settings, kind)| then
          [Scheduled(settings.hype.channel, MessagesOf(settings, kind)[IndexFor(e, kind)], ev.now + settings.hype.delay)]
        else []
  }

  /** All of it, given whether the message completes a ready batch and leaves the session ready. */
  function Reply(config: RuntimeConfig, e: Engine, ev: Event, batch: bool, ready: bool): seq<Utterance>
    requires |config.bot.messageRules| == |e.ruleLastSent|
  {
    Pong(ev.message, ev.now)
    + (if batch then Joins(config.channels, ev.now) else [])
    + (if ready then Privmsgs(BotAnswers(config.bot, e, ev)) else [])
  }

  // ---------------------------------------------------------------------------
  // Sending
  // ---------------------------------------------------------------------------

  lemma SendTalks(s: Session, line: string, kind: Kind, channel: string, due: Time, now: Time)
    requires !s.out.closed
    ensures Talk(SendLine(s, line, kind, channel, due, now)) == Talk(s) + [Utterance(line, kind, channel, due)]
  {
    hide Offer;
    OfferedGrows(s.out, line, kind, channel, due, now);
    var m := Outbound(line, kind, channel, due, s.out.nextSequence);
    assert (s.out.ledger.offered + [m])[..|s.out.ledger.offered|] == s.out.ledger.offered;
  }

  lemma SameTalk(s: Session, s': Session)
    requires s'.out.ledger.offered == s.out.ledger.offered
    ensures Talk(s') == Talk(s)
  {
  }

  /** The sends of a batch. */
  function Sends(actions: seq<Action>, now: Time): seq<Utterance> {
    if actions == [] then []
    else
      (if actions[0].Send? then [Utterance(actions[0].data, actions[0].kind, actions[0].channel, now)] else [])
      + Sends(actions[1..], now)
  }

  lemma {:induction false} ActionsTalk(s: Session, actions: seq<Action>, now: Time)
    requires !s.out.closed
    ensures Talk(ApplyActions(s, actions, now)) <= Talk(s) + Sends(actions, now)
    ensures !ApplyActions(s, actions, now).out.closed ==>
              Talk(ApplyActions(s, actions, now)) == Talk(s) + Sends(actions, now)
    decreases |actions|
  {
    hide SendLine, Uttered;
    assert Talk(s) + [] == Talk(s);
    if actions != [] {
      var a := actions[0];
      var sent := if a.Send? then [Utterance(a.data, a.kind, a.channel, now)] else [];
      assert Talk(s) + (sent + Sends(actions[1..], now)) == Talk(s) + sent + Sends(actions[1..], now);
      if a.Send? {
        SendTalks(s, a.data, a.kind, a.channel, now, now);
      } else {
        SameTalk(s, ApplyAction(s, a, now));
      }
      var s' := ApplyAction(s, a, now);
      if !s'.out.closed {
        ActionsTalk(s', actions[1..], now);
      }
    }
  }

  ghost predicate Sendable(chats: seq<Scheduled>) {
    forall i | 0 <= i < |chats| :: ValidLogin(chats[i].channel) && ValidMessage(chats[i].text)
  }

  lemma PrivmsgIs(channel: string, text: string)
    requires ValidLogin(channel) && ValidMessage(text)
    ensures MakePrivmsg(channel, text) == Ok("PRIVMSG #" + channel + " :" + text + "\r\n")
  {
    hide HasLineBreak, IsLoginChar;
    PrivmsgFits(channel, text);
    LoginHasNoBreak(channel);
    assert "PRIVMSG " + ("#" + channel) + " :" + text + "\r\n" == "PRIVMSG #" + channel + " :" + text + "\r\n";
  }

  lemma {:induction false} ChatsTalk(s: Session, chats: seq<Scheduled>, now: Time)
    requires Healthy(s.out) && Sendable(chats)
    ensures Talk(SendChats(s, chats, now)) == Talk(s) + Privmsgs(chats)
    decreases |chats|
  {
    hide SendLine, MakePrivmsg, Uttered, ValidLogin, ValidMessage, Healthy;
    if chats == [] {
      assert Talk(s) + [] == Talk(s);
    } else {
      var c := chats[0];
      PrivmsgIs(c.channel, c.text);
      var line := MakePrivmsg(c.channel, c.text).value;
      HealthyIsOpen(s.out);
      SendTalks(s, line, Chat, c.channel, c.due, now);
      SendEnds(s, line, Chat, c.channel, c.due, now);
      ChatsTalk(SendLine(s, line, Chat, c.channel, c.due, now), chats[1..], now);
      assert Privmsgs(chats) == [Utterance(line, Chat, c.channel, c.due)] + Privmsgs(chats[1..]);
      assert Talk(s) + Privmsgs(chats) == Talk(s) + [Utterance(line, Chat, c.channel, c.due)] + Privmsgs(chats[1..]);
    }
  }

  lemma HealthyIsOpen(o: Outbox)
    ensures Healthy(o) ==> !o.closed
  {
  }

  // ---------------------------------------------------------------------------
  // The bot's part
  // ---------------------------------------------------------------------------

  lemma {:induction false} ResponsesAreSendable(settings: BotSettings, e: Engine, n: nat, m: IrcMessage, now: Time)
    requires n <= |settings.messageRules| == |e.ruleLastSent| && ValidSettings(settings)
    ensures Sendable(Responses(settings, e, n, m, now))
  {
    hide ValidHype, ValidLogin, NormalizeChannel, SenderFromPrefix, Contains;
    if n > 0 {
      ResponsesAreSendable(settings, e, n - 1, m, now);
      assert ValidRule(settings.messageRules[n - 1]);
      if Fires(settings, e, n - 1, m, now) {
        NormalizedIsStable(m.parameters[0]);
      }
    }
  }

  /** The engine answers with this, and all of it can be sent. */
  lemma BotAnswersAre(settings: BotSettings, e: Engine, ev: Event)
    requires |settings.messageRules| == |e.ruleLastSent| && ValidSettings(settings)
    requires settings.hype.enabled ==> forall k :: IndexFor(e, k) < |MessagesOf(settings, k)|
    ensures AfterEvent(settings, e, ev.message, ev.now).1 == Ok(BotAnswers(settings, e, ev))
    ensures Sendable(BotAnswers(settings, e, ev))
  {
    hide Responses, Fires, ChannelFromMessage, HypeKindOf, ValidLogin, ValidMessage;
    ResponsesAreSendable(settings, e, |settings.messageRules|, ev.message, ev.now);
    assert IndexFor(e, Gift) == e.giftIndex && IndexFor(e, Subscription) == e.subscriptionIndex;
    HypeStep(settings, e, ev, Gift);
    HypeStep(settings, e, ev, Subscription);
    HypeIsNoChat(settings, ev.message);
  }

  lemma HypeIsNoChat(settings: BotSettings, m: IrcMessage)
    ensures HypeEvent(settings, m).Some? ==> m.command == "USERNOTICE" && settings.hype.enabled
  {
  }

  // ---------------------------------------------------------------------------
  // The protocol's part
  // ---------------------------------------------------------------------------

  lemma SendsCons(a: Action, more: seq<Action>, now: Time)
    ensures Sends([a] + more, now)
            == (if a.Send? then [Utterance(a.data, a.kind, a.channel, now)] else []) + Sends(more, now)
  {
    assert ([a] + more)[1..] == more;
  }

  lemma {:induction false} SendsConcat(a: seq<Action>, b: seq<Action>, now: Time)
    ensures Sends(a + b, now) == Sends(a, now) + Sends(b, now)
  {
    if a == [] {
      assert a + b == b;
    } else {
      hide Sends;
      var rest := a[1..];
      assert a == [a[0]] + rest && a + b == [a[0]] + (rest + b);
      SendsCons(a[0], rest, now);
      SendsCons(a[0], rest + b, now);
      SendsConcat(rest, b, now);
    }
  }

  lemma {:induction false} JoinsAreSent(channels: seq<string>, now: Time)
    requires ValidNames(channels)
    ensures JoinActions(channels).Ok? && Sends(JoinActions(channels).value, now) == Joins(channels, now)
  {
    hide ValidLogin;
    ValidNamesJoin(channels);
    if channels != [] {
      var n := |channels| - 1;
      JoinsAreSent(channels[..n], now);
      JoinFits(channels[n]);
      var join := Send("JOIN #" + channels[n] + "\r\n", Join, channels[n]);
      SendsConcat(JoinActions(channels[..n]).value, [join], now);
      assert [join][1..] == [];
    }
  }

  /** The protocol sends a PONG, or the JOINs if the batch makes the session ready. */
  lemma ProtocolTalks(config: RuntimeConfig, p: Negotiation, m: IrcMessage, now: Time)
    requires Validated(config) && AfterHandle(config, p, m).1.Ok?
    ensures Sends(AfterHandle(config, p, m).1.value, now)
            == Pong(m, now) + (if EmitsReady(config, p, m) then Joins(config.channels, now) else [])
  {
    hide JoinActions, AckAll, Tokens, IsLoginFailure, ValidNames, ValidToken, ValidSettings;
    JoinsAreSent(config.channels, now);
    var actions := AfterHandle(config, p, m).1.value;
    if actions != [] && actions[0].BecameReady? {
      assert actions[1..] == JoinActions(config.channels).value;
    } else if actions != [] {
      assert actions[1..] == [];
    }
  }

  // ---------------------------------------------------------------------------
  // One line
  // ---------------------------------------------------------------------------

  /** A line that is a message makes an open session offer exactly its reply: all of it if
      the session stays open, else a prefix. Chat is answered if and only if the session is
      ready after the message, and the engine moves on only then. */
  lemma LineTalks(config: RuntimeConfig, s: Session, line: string, now: Time)
    requires Validated(config) && EngineReady(config, s.engine) && Healthy(s.out) && Fits(config, s)
    ensures var (s', ok) := HandleLine(config, s, line, now);
            match ParseLine(line)
            case None => s' == s && ok
            case Some(m) =>
              var p := AfterHandle(config, s.negotiation, m).0;
              var reply := Reply(config, s.engine, Event(m, now), EmitsReady(config, s.negotiation, m), p.state.Ready?);
              && Talk(s') <= Talk(s) + reply
              && (ok && !s'.out.closed ==>
                    && Talk(s') == Talk(s) + reply && s'.negotiation == p
                    && s'.engine == if p.state.Ready? then AfterEvent(config.bot, s.engine, m, now).0 else s.engine)
  {
    hide Validated, ParseLine, AfterHandle, AfterEvent, ApplyActions, SendChats, Uttered, Sends, Healthy, Pong, Joins,
      Privmsgs, BotAnswers, EmitsReady, Sendable, EngineReady, LineVerdict;
    HealthyIsOpen(s.out);
    if ParseLine(line).Some? {
      var m := ParseLine(line).value;
      var (p, actions) := AfterHandle(config, s.negotiation, m);
      var s1 := s.(negotiation := p);
      SameTalk(s, s1);
      if actions.Ok? {
        var s2 := ApplyActions(s1, actions.value, now);
        ActionsTalk(s1, actions.value, now);
        ApplyKeepsFields(s1, actions.value, now);
        StillNothing(s1, actions.value, now);
        ProtocolTalks(config, s.negotiation, m, now);
        ValidBot(config);
        EngineInRange(config, s.engine);
        BotAnswersAre(config.bot, s.engine, Event(m, now));
        var chats := BotAnswers(config.bot, s.engine, Event(m, now));
        ThenChats(Talk(s), Sends(actions.value, now), if p.state.Ready? then Privmsgs(chats) else []);
        if !s2.out.closed {
          BatchKeepsHealthy(config, s, m, now);
          var s3 := s2.(engine := AfterEvent(config.bot, s.engine, m, now).0);
          SameTalk(s2, s3);
          SendChatsKeepsFields(s3, chats, now);
          ChatsTalk(s3, chats, now);
        }
      }
    }
  }

  lemma EngineInRange(config: RuntimeConfig, e: Engine)
    requires EngineReady(config, e)
    ensures |e.ruleLastSent| == |config.bot.messageRules|
    ensures config.bot.hype.enabled ==> forall k :: IndexFor(e, k) < |MessagesOf(config.bot, k)|
  {
  }

  lemma ThenChats(a: seq<Utterance>, b: seq<Utterance>, c: seq<Utterance>)
    ensures a + b + c == a + (b + c) && a + b + [] == a + b && b + [] == b
  {
  }

  lemma ValidBot(config: RuntimeConfig)
    requires Validated(config)
    ensures ValidSettings(config.bot)
  {
  }

  /** A batch that leaves a healthy session open leaves it healthy. */
  lemma BatchKeepsHealthy(config: RuntimeConfig, s: Session, m: IrcMessage, now: Time)
    requires Validated(config) && Healthy(s.out)
    requires AfterHandle(config, s.negotiation, m).1.Ok?
    ensures var (p, actions) := AfterHandle(config, s.negotiation, m);
            var o := ApplyActions(s.(negotiation := p), actions.value, now).out;
            !o.closed ==> Healthy(o)
  {
    hide AfterHandle, Validated, ApplyAction;
    var (p, actions) := AfterHandle(config, s.negotiation, m);
    OpenStaysHealthy(s.(negotiation := p), actions.value, now);
  }

  lemma {:induction false} OpenStaysHealthy(s: Session, actions: seq<Action>, now: Time)
    requires Healthy(s.out)
    ensures !ApplyActions(s, actions, now).out.closed ==> Healthy(ApplyActions(s, actions, now).out)
    decreases |actions|
  {
    hide SendLine, Overflowed;
    if actions != [] {
      var a := actions[0];
      if a.Send? {
        SendEnds(s, a.data, a.kind, a.channel, now, now);
      }
      var s' := ApplyAction(s, a, now);
      OverflowCloses(s'.out);
      if !s'.out.closed {
        OpenStaysHealthy(s', actions[1..], now);
      }
    }
  }
}
