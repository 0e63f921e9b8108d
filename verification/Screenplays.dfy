/** Everything a session is to say, as a function of what it has heard: the greeting, the
    PONGs, the JOINs of each ready batch and the bot's responses, in order; and that each
    callback keeps to it. */
module Screenplays {
  import opened Basics
  import opened Framing
  import opened IrcMessages
  import opened RateLimits
  import opened Configuration
  import opened Protocol
  import opened Readiness
  import opened Automation
  import opened Cooldowns
  import opened Scheduler
  import opened SchedulerInvariants
  import opened Sessions
  import opened SessionInvariants
  import opened SessionTraffic
  import opened SessionEnds
  import opened SessionTalk

  // ---------------------------------------------------------------------------
  // What a session hears
  // ---------------------------------------------------------------------------

  datatype Chunk = Chunk(bytes: string, at: Time)

  function Stream(heard: seq<Chunk>): string {
    if heard == [] then "" else Stream(heard[..|heard| - 1]) + heard[|heard| - 1].bytes
  }

  /** The messages among some lines. */
  function ToldBy(lines: seq<string>, at: Time): seq<Event>
    decreases |lines|
  {
    if lines == [] then []
    else (if ParseLine(lines[0]).Some? then [Event(ParseLine(lines[0]).value, at)] else []) + ToldBy(lines[1..], at)
  }

  /** The messages in the stream, each with the instant of the read that completed its line. */
  function Told(heard: seq<Chunk>): seq<Event> {
    if heard == [] then []
    else
      var before, last := heard[..|heard| - 1], heard[|heard| - 1];
      Told(before) + ToldBy(Split(Split(Stream(before)).tail + last.bytes).lines, last.at)
  }

  function Texts(es: seq<Event>): seq<IrcMessage> {
    if es == [] then [] else Texts(es[..|es| - 1]) + [es[|es| - 1].message]
  }

  // ---------------------------------------------------------------------------
  // What it is to say
  // ---------------------------------------------------------------------------

  ghost predicate ReadyAfter(es: seq<Event>) {
    Satisfied(Texts(es)) && Alive(Texts(es))
  }

  /** The last message completes a ready batch. */
  ghost predicate BatchAt(es: seq<Event>)
    requires es != []
  {
    ReadyAfter(es) && (!ReadyAfter(es[..|es| - 1]) || IsCap(es[|es| - 1].message, "ACK"))
  }

  /** The messages that the bot sees: those after which the session is ready. */
  ghost function Witnessed(es: seq<Event>): seq<Event> {
    if es == [] then []
    else Witnessed(es[..|es| - 1]) + (if ReadyAfter(es) then [es[|es| - 1]] else [])
  }

  ghost function Replies(config: RuntimeConfig, es: seq<Event>): seq<Utterance> {
    if es == [] then []
    else
      var before := es[..|es| - 1];
      Replies(config, before)
      + Reply(config, Cooldowns.Run(config.bot, Witnessed(before)), es[|es| - 1], BatchAt(es), ReadyAfter(es))
  }

  function Greeting(config: RuntimeConfig, at: Time): seq<Utterance> {
    [Utterance("PASS " + config.oauthToken + "\r\n", System, "", at),
     Utterance("NICK " + config.username + "\r\n", System, "", at),
     Utterance("CAP REQ :twitch.tv/membership twitch.tv/tags twitch.tv/commands" + "\r\n", System, "", at)]
  }

  ghost function Screenplay(config: RuntimeConfig, at: Time, heard: seq<Chunk>): seq<Utterance> {
    Greeting(config, at) + Replies(config, Told(heard))
  }

  // ---------------------------------------------------------------------------
  // The bot's part of it
  // ---------------------------------------------------------------------------

  function OfKind(us: seq<Utterance>, kind: Kind): seq<Utterance> {
    if us == [] then []
    else OfKind(us[..|us| - 1], kind) + (if us[|us| - 1].kind == kind then [us[|us| - 1]] else [])
  }

  /** The bot's responses to the messages it sees. */
  function BotSays(settings: BotSettings, es: seq<Event>): seq<Scheduled> {
    if es == [] then []
    else
      var before := es[..|es| - 1];
      BotSays(settings, before) + BotAnswers(settings, Cooldowns.Run(settings, before), es[|es| - 1])
  }

  lemma {:induction false} OfKindConcat(a: seq<Utterance>, b: seq<Utterance>, kind: Kind)
    ensures OfKind(a + b, kind) == OfKind(a, kind) + OfKind(b, kind)
    decreases |b|
  {
    if b == [] {
      assert a + b == a && OfKind(a, kind) + [] == OfKind(a, kind);
    } else {
      var n := |b| - 1;
      assert (a + b)[..|a| + n] == a + b[..n];
      OfKindConcat(a, b[..n], kind);
    }
  }

  lemma {:induction false} AllOfKind(us: seq<Utterance>, kind: Kind, chosen: bool)
    requires forall i | 0 <= i < |us| :: us[i].kind == kind <==> chosen
    ensures OfKind(us, kind) == if chosen then us else []
  {
    if us != [] {
      var n := |us| - 1;
      AllOfKind(us[..n], kind, chosen);
      assert us[..n] + [us[n]] == us;
    }
  }

  lemma ChatOfReply(config: RuntimeConfig, e: Engine, ev: Event, batch: bool, ready: bool)
    requires |config.bot.messageRules| == |e.ruleLastSent|
    ensures OfKind(Reply(config, e, ev, batch, ready), Chat)
            == if ready then Privmsgs(BotAnswers(config.bot, e, ev)) else []
  {
    hide BotAnswers;
    var pong := Pong(ev.message, ev.now);
    var joins := if batch then Joins(config.channels, ev.now) else [];
    var chats := if ready then Privmsgs(BotAnswers(config.bot, e, ev)) else [];
    AllOfKind(pong, Chat, false);
    AllOfKind(joins, Chat, false);
    AllOfKind(chats, Chat, true);
    OfKindConcat(pong, joins, Chat);
    OfKindConcat(pong + joins, chats, Chat);
  }

  lemma PrivmsgsConcat(a: seq<Scheduled>, b: seq<Scheduled>)
    ensures Privmsgs(a + b) == Privmsgs(a) + Privmsgs(b)
  {
  }

  /** The chat in the replies is the bot's responses to what it sees. */
  lemma {:induction false} ChatOfReplies(config: RuntimeConfig, es: seq<Event>)
    ensures OfKind(Replies(config, es), Chat) == Privmsgs(BotSays(config.bot, Witnessed(es)))
  {
    hide Reply, BotAnswers, Privmsgs, ReadyAfter, BatchAt;
    if es == [] {
      NoPrivmsgs();
    } else {
      var n := |es| - 1;
      var seen := Witnessed(es[..n]);
      var e := Cooldowns.Run(config.bot, seen);
      ChatOfReplies(config, es[..n]);
      OfKindConcat(Replies(config, es[..n]), Reply(config, e, es[n], BatchAt(es), ReadyAfter(es)), Chat);
      ChatOfReply(config, e, es[n], BatchAt(es), ReadyAfter(es));
      if ReadyAfter(es) {
        assert (seen + [es[n]])[..|seen|] == seen;
        PrivmsgsConcat(BotSays(config.bot, seen), BotAnswers(config.bot, e, es[n]));
      } else {
        assert seen + [] == seen;
        assert OfKind(Replies(config, es[..n]), Chat) + [] == OfKind(Replies(config, es[..n]), Chat);
      }
    }
  }

  lemma NoPrivmsgs()
    ensures Privmsgs([]) == []
  {
  }

  lemma ChatOfScreenplay(config: RuntimeConfig, at: Time, heard: seq<Chunk>)
    ensures OfKind(Screenplay(config, at, heard), Chat) == Privmsgs(BotSays(config.bot, Witnessed(Told(heard))))
  {
    hide Replies, Told, Privmsgs, BotSays;
    OfKindConcat(Greeting(config, at), Replies(config, Told(heard)), Chat);
    AllOfKind(Greeting(config, at), Chat, false);
    ChatOfReplies(config, Told(heard));
  }

  // ---------------------------------------------------------------------------
  // Line by line
  // ---------------------------------------------------------------------------

  /** An open session that has heard these messages and said what they ask for. */
  ghost predicate Follows(config: RuntimeConfig, s: Session, es: seq<Event>, greeting: seq<Utterance>) {
    && Healthy(s.out)
    && Talk(s) == greeting + Replies(config, es)
    && s.negotiation == Readiness.Run(config, AfterBegin(config, NEW_NEGOTIATION).0, Texts(es))
    && s.engine == Cooldowns.Run(config.bot, Witnessed(es))
  }

  lemma {:induction false} RepliesGrow(config: RuntimeConfig, es: seq<Event>, more: seq<Event>)
    ensures Replies(config, es) <= Replies(config, es + more)
    decreases |more|
  {
    hide Reply, BatchAt, ReadyAfter, Witnessed;
    if more == [] {
      assert es + more == es;
    } else {
      var n := |more| - 1;
      assert (es + more)[..|es| + n] == es + more[..n];
      RepliesGrow(config, es, more[..n]);
    }
  }

  lemma FollowerIsReady(config: RuntimeConfig, s: Session, es: seq<Event>, greeting: seq<Utterance>)
    requires Validated(config) && Follows(config, s, es, greeting)
    ensures EngineReady(config, s.engine) && Fits(config, s)
  {
    hide Validated, Talk, Replies, Readiness.Run, Witnessed, Healthy;
    ValidBot(config);
    EngineOfRun(config, Witnessed(es));
  }

  lemma EngineOfRun(config: RuntimeConfig, es: seq<Event>)
    requires ValidSettings(config.bot)
    ensures EngineReady(config, Cooldowns.Run(config.bot, es))
  {
    hide Cooldowns.Run;
    HypeRuns(config.bot, es);
  }

  /** After one more message: the protocol and the engine are where the history says. */
  lemma OneMoreMessage(config: RuntimeConfig, es: seq<Event>, ev: Event)
    requires Validated(config)
    ensures var p := Readiness.Run(config, AfterBegin(config, NEW_NEGOTIATION).0, Texts(es));
            var p' := AfterHandle(config, p, ev.message).0;
            var e := Cooldowns.Run(config.bot, Witnessed(es));
            && Readiness.Run(config, AfterBegin(config, NEW_NEGOTIATION).0, Texts(es + [ev])) == p'
            && (p'.state.Ready? <==> ReadyAfter(es + [ev]))
            && (EmitsReady(config, p, ev.message) <==> BatchAt(es + [ev]))
            && Cooldowns.Run(config.bot, Witnessed(es + [ev]))
               == (if ReadyAfter(es + [ev]) then AfterEvent(config.bot, e, ev.message, ev.now).0 else e)
            && Replies(config, es + [ev])
               == Replies(config, es) + Reply(config, e, ev, BatchAt(es + [ev]), ReadyAfter(es + [ev]))
  {
    hide Validated, AfterHandle, AfterBegin, AfterEvent, Satisfied, Alive, IsCap, EmitsReady, Reply;
    var all := es + [ev];
    assert all[..|es|] == es;
    var ms := Texts(es);
    assert Texts(all) == ms + [ev.message];
    assert (ms + [ev.message])[..|ms|] == ms;
    ReadyExactly(config, ms + [ev.message]);
    ReadyBatchExactly(config, ms, ev.message);
    var seen := Witnessed(es);
    assert (seen + [ev])[..|seen|] == seen && seen + [] == seen;
  }

  lemma LineFollows(config: RuntimeConfig, s: Session, line: string, now: Time, es: seq<Event>, greeting: seq<Utterance>)
    requires Validated(config) && Follows(config, s, es, greeting)
    ensures Fits(config, s)
    ensures var (s', ok) := HandleLine(config, s, line, now);
            var es' := es + ToldBy([line], now);
            && Talk(s') <= greeting + Replies(config, es')
            && (ok && !s'.out.closed ==> Follows(config, s', es', greeting))
  {
    hide Validated, HandleLine, Talk, Replies, Readiness.Run, Cooldowns.Run, Witnessed, Texts, EngineReady, Reply, ReadyAfter,
      BatchAt, AfterHandle, AfterBegin, AfterEvent, ParseLine, EmitsReady, Healthy, LineVerdict, Overflowed;
    FollowerIsReady(config, s, es, greeting);
    LineTalks(config, s, line, now);
    LineEnds(config, s, line, now);
    ToldByOne(line, now);
    var s' := HandleLine(config, s, line, now).0;
    OverflowCloses(s'.out);
    HealthyAgain(LineVerdict(line), s'.out, HandleLine(config, s, line, now).1);
    if ParseLine(line).Some? {
      var ev := Event(ParseLine(line).value, now);
      OneMoreMessage(config, es, ev);
      ThenReplies(greeting, Replies(config, es),
                  Reply(config, s.engine, ev, BatchAt(es + [ev]), ReadyAfter(es + [ev])));
    } else {
      assert es + [] == es;
    }
  }

  lemma HealthyAgain(verdict: Option<EndReason>, o: Outbox, ok: bool)
    requires EndsWith(verdict, o, ok)
    ensures ok && !o.closed ==> Healthy(o)
  {
  }

  lemma ThenReplies(a: seq<Utterance>, b: seq<Utterance>, c: seq<Utterance>)
    ensures a + b + c == a + (b + c)
  {
  }

  lemma ToldByOne(line: string, at: Time)
    ensures ToldBy([line], at) == if ParseLine(line).Some? then [Event(ParseLine(line).value, at)] else []
  {
    hide ParseLine;
    assert [line][1..] == [];
  }

  lemma ToldByCons(lines: seq<string>, at: Time)
    requires lines != []
    ensures ToldBy(lines, at) == ToldBy([lines[0]], at) + ToldBy(lines[1..], at)
  {
    hide ParseLine;
    ToldByOne(lines[0], at);
  }

  lemma {:induction false} LinesFollow(config: RuntimeConfig, s: Session, lines: seq<string>, now: Time, es: seq<Event>,
                                       greeting: seq<Utterance>)
    requires Validated(config) && Follows(config, s, es, greeting)
    ensures Fits(config, s)
    ensures var (s', ok) := HandleLines(config, s, lines, now);
            var es' := es + ToldBy(lines, now);
            && Talk(s') <= greeting + Replies(config, es')
            && (ok && !s'.out.closed ==> Follows(config, s', es', greeting))
    decreases |lines|
  {
    hide Validated, HandleLine, Follows, Talk, Replies, ToldBy;
    FollowerIsReady(config, s, es, greeting);
    FollowerTalks(config, s, es, greeting);
    if lines == [] {
      assert ToldBy([], now) == [] by { ToldByNone(now); }
      assert es + [] == es;
    } else {
      var (s', ok) := HandleLine(config, s, lines[0], now);
      var es' := es + ToldBy([lines[0]], now);
      LineFollows(config, s, lines[0], now, es, greeting);
      HandleLineFits(config, s, lines[0], now);
      ToldByCons(lines, now);
      var rest := ToldBy(lines[1..], now);
      assert es + ToldBy(lines, now) == es' + rest;
      RepliesGrow(config, es', rest);
      if ok && !s'.out.closed {
        LinesFollow(config, s', lines[1..], now, es', greeting);
      }
    }
  }

  lemma ToldByNone(at: Time)
    ensures ToldBy([], at) == []
  {
  }

  lemma FollowerTalks(config: RuntimeConfig, s: Session, es: seq<Event>, greeting: seq<Utterance>)
    requires Follows(config, s, es, greeting)
    ensures Talk(s) == greeting + Replies(config, es)
    ensures !s.out.closed
  {
  }

  // ---------------------------------------------------------------------------
  // Callback by callback
  // ---------------------------------------------------------------------------

  /** What holds of the latest session: it has said a part of its screenplay; an open one has
      said all of it and buffers the unfinished line. */
  ghost predicate Acts(config: RuntimeConfig, s: Session, dialing: bool, at: Time, heard: seq<Chunk>) {
    if dialing then heard == [] && s.out.ledger.offered == []
    else if s.out.closed then Talk(s) <= Screenplay(config, at, heard)
    else Follows(config, s, Told(heard), Greeting(config, at)) && s.buffer == Split(Stream(heard)).tail
  }

  lemma ReadGrows(config: RuntimeConfig, at: Time, heard: seq<Chunk>, c: Chunk)
    ensures Told(heard + [c]) == Told(heard) + ToldBy(Split(Split(Stream(heard)).tail + c.bytes).lines, c.at)
    ensures Split(Stream(heard + [c])).tail == Split(Split(Stream(heard)).tail + c.bytes).tail
    ensures Screenplay(config, at, heard) <= Screenplay(config, at, heard + [c])
  {
    hide Split, ToldBy, Replies;
    assert (heard + [c])[..|heard|] == heard;
    SplitResumes(Stream(heard), c.bytes);
    RepliesGrow(config, Told(heard), ToldBy(Split(Split(Stream(heard)).tail + c.bytes).lines, c.at));
  }

  lemma ReadActs(config: RuntimeConfig, s: Session, at: Time, heard: seq<Chunk>, c: Chunk)
    requires Validated(config) && Fits(config, s) && Acts(config, s, false, at, heard)
    ensures Acts(config, OnRead(config, s, c.bytes, c.at), false, at, heard + [c])
  {
    hide Validated, Split, Told, Stream, Talk, Replies, ToldBy, OnRead, Follows;
    ReadGrows(config, at, heard, c);
    if s.out.closed {
      ClosedTalksNothing(config, s, c.bytes, c.at);
    } else {
      OpenReadActs(config, s, at, heard, c);
    }
  }

  lemma ClosedTalksNothing(config: RuntimeConfig, s: Session, bytes: string, now: Time)
    requires Fits(config, s) && s.out.closed
    ensures Talk(OnRead(config, s, bytes, now)) == Talk(s) && OnRead(config, s, bytes, now).out.closed
  {
    hide OnRead, HandleLine, HandleLines, Pushed;
    ClosedReadIsSilent(config, s, bytes, now);
    SameTalk(s, OnRead(config, s, bytes, now));
  }

  lemma WithBufferFollows(config: RuntimeConfig, s: Session, buffer: string, es: seq<Event>, greeting: seq<Utterance>)
    requires Follows(config, s, es, greeting)
    ensures Follows(config, s.(buffer := buffer), es, greeting)
  {
    hide Replies, Healthy, Uttered;
  }

  lemma OpenReadActs(config: RuntimeConfig, s: Session, at: Time, heard: seq<Chunk>, c: Chunk)
    requires Validated(config) && Fits(config, s) && Acts(config, s, false, at, heard) && !s.out.closed
    ensures Acts(config, OnRead(config, s, c.bytes, c.at), false, at, heard + [c])
  {
    hide Validated, Split, Cut, Told, Stream, Talk, Replies, ToldBy, HandleLines, Follows, Close;
    ReadGrows(config, at, heard, c);
    FollowerTalks(config, s, Told(heard), Greeting(config, at));
    var (buffer, lines) := Pushed(s.buffer, c.bytes);
    var s1 := s.(buffer := buffer);
    WithBufferFollows(config, s, buffer, Told(heard), Greeting(config, at));
    SameTalk(s, s1);
    ClosingTalks(s1, NetworkError);
    if lines.Ok? {
      CutIsSplit(s.buffer + c.bytes);
      LinesFollow(config, s1, lines.value, c.at, Told(heard), Greeting(config, at));
      LinesSay(config, s1, lines.value, c.at);
      ClosingTalks(HandleLines(config, s1, lines.value, c.at).0, NetworkError);
    }
  }

  lemma ClosingTalks(s: Session, reason: EndReason)
    ensures Talk(Close(s, reason)) == Talk(s) && Close(s, reason).out.closed
  {
    SameTalk(s, Close(s, reason));
  }

  /** A callback that offers nothing, hears nothing and leaves an open session healthy. */
  lemma QuietActs(config: RuntimeConfig, s: Session, s': Session, dialing: bool, at: Time, heard: seq<Chunk>)
    requires Acts(config, s, dialing, at, heard)
    requires s'.out.ledger.offered == s.out.ledger.offered && s'.buffer == s.buffer
    requires s'.negotiation == s.negotiation && s'.engine == s.engine
    requires if s'.out.closed then true else !s.out.closed && Healthy(s'.out)
    ensures Acts(config, s', dialing, at, heard)
  {
    hide Split, Replies, Told, Stream, Uttered, Healthy;
    SameTalk(s, s');
  }

  /** The callbacks that hear nothing. */
  lemma HearsNothing(config: RuntimeConfig, s: Session, e: SessionEvent, now: Time)
    requires Fits(config, s) && (e.WriteDone? ==> s.out.currentWrite.Some?)
    requires !e.HandshakeDone? && !e.BytesRead?
    ensures var s' := Callback(config, s, e, now);
            && s'.negotiation == s.negotiation && s'.engine == s.engine && s'.buffer == s.buffer
            && s'.out.ledger.offered == s.out.ledger.offered
            && (Healthy(s.out) && !s'.out.closed ==> Healthy(s'.out))
            && (s.out.closed ==> s'.out.closed)
  {
    hide Best, ReadyAt, AskAll;
  }

  lemma UtteredThree(q: seq<Outbound>)
    requires |q| == 3
    ensures Uttered(q) == [Utterance(q[0].wireData, q[0].kind, q[0].channel, q[0].due),
                           Utterance(q[1].wireData, q[1].kind, q[1].channel, q[1].due),
                           Utterance(q[2].wireData, q[2].kind, q[2].channel, q[2].due)]
  {
    assert q[..2][..1] == q[..1] && q[..1][..0] == [];
    assert Uttered(q[..1]) == [Utterance(q[0].wireData, q[0].kind, q[0].channel, q[0].due)];
  }

  lemma GreetingIs(config: RuntimeConfig, at: Time)
    ensures var hello := Hello(config);
            && |hello| == 3
            && Greeting(config, at) == [Utterance(hello[0], System, "", at), Utterance(hello[1], System, "", at),
                                        Utterance(hello[2], System, "", at)]
  {
  }

  lemma DialActs(config: RuntimeConfig, s: Session, now: Time)
    requires Validated(config) && Dialing(config, s, now) && Acts(config, s, true, now, [])
    ensures Acts(config, OnHandshake(config, s, now), false, now, [])
    ensures forall at :: Acts(config, Close(s, NetworkError), false, at, [])
  {
    hide Validated, Inv, OnHandshake, AfterBegin, EngineReady, Hello, Greeting, Split, Healthy, SendLine;
    var s' := OnHandshake(config, s, now);
    HandshakeKeeps(config, s, now);
    SameTalk(s, Close(s, NetworkError));
    assert Talk(s) == [];
    if s.out.closed {
      assert s'.out.ledger.offered == [];
    } else {
      GreetingIs(config, now);
      OpenDialIsHealthy(s.out, now);
      HandshakeTalks(config, s, now);
      HandshakeEnds(config, s, now);
      EmptyFree();
      SplitWhole("");
      assert Greeting(config, now) + [] == Greeting(config, now);
    }
  }

  lemma OpenDialIsHealthy(o: Outbox, now: Time)
    requires Inv(o, now)
    ensures !o.closed ==> Healthy(o)
  {
    hide Order, Balanced, Numbered, SystemFifo, Paced, Armed;
  }

  lemma HandshakeTalks(config: RuntimeConfig, s: Session, now: Time)
    requires Validated(config) && Dialing(config, s, now) && Healthy(s.out)
    ensures var s' := OnHandshake(config, s, now);
            && Talk(s') == Greeting(config, now)
            && s'.negotiation == AfterBegin(config, NEW_NEGOTIATION).0 && s'.engine == NewEngine(config.bot)
  {
    hide Validated, Inv, AfterBegin, Hello, Greeting, SendLine, Healthy, Uttered;
    GreetingIs(config, now);
    HelloActions(config, s.negotiation);
    var hello := Hello(config);
    var s0 := s.(negotiation := AfterBegin(config, s.negotiation).0);
    var s1 := SendLine(s0, hello[0], System, "", now, now);
    var s2 := SendLine(s1, hello[1], System, "", now, now);
    ApplyThree(s0, hello[0], hello[1], hello[2], now);
    HandshakeKeeps(config, s, now);
    HandshakeStaysOpen(config, s, now);
    SendTalks(s0, hello[0], System, "", now, now);
    SendTalks(s1, hello[1], System, "", now, now);
    SendTalks(s2, hello[2], System, "", now, now);
    assert Talk(s0) == [] by { NothingUttered(s0); }
    SendKeepsFields(s0, hello[0], now);
    SendKeepsFields(s1, hello[1], now);
    SendKeepsFields(s2, hello[2], now);
  }

  lemma NothingUttered(s: Session)
    requires s.out.ledger.offered == []
    ensures Talk(s) == []
  {
  }

  lemma HandshakeStaysOpen(config: RuntimeConfig, s: Session, now: Time)
    requires Dialing(config, s, now) && Healthy(s.out)
    ensures var hello := Hello(config);
            var s0 := s.(negotiation := AfterBegin(config, s.negotiation).0);
            var s1 := SendLine(s0, hello[0], System, "", now, now);
            !s0.out.closed && !s1.out.closed && !SendLine(s1, hello[1], System, "", now, now).out.closed
  {
    hide Inv, Offer, AfterBegin, Hello;
    HelloShape(config, s.negotiation);
    var hello := Hello(config);
    var o1 := Offer(s.out, hello[0], System, "", now, now);
    StaysOpen(s.out, hello[0], now);
    OfferKeeps(s.out, hello[0], System, "", now, now);
    OfferedGrows(s.out, hello[0], System, "", now, now);
    StaysOpen(o1, hello[1], now);
  }

  lemma SendKeepsFields(s: Session, line: string, now: Time)
    ensures var s' := SendLine(s, line, System, "", now, now); s'.negotiation == s.negotiation && s'.engine == s.engine
  {
  }
}
