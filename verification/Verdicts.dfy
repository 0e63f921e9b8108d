/** What single server messages do to a session, told by their words: which ones welcome it,
    which ones end it and why, and the lines with which Twitch says so. */
module Verdicts {
  import opened Basics
  import opened IrcText
  import opened IrcMessages
  import opened IrcRoundTrip
  import opened Configuration
  import opened Spelling
  import opened TwitchTexts
  import opened Protocol
  import opened Readiness
  import opened Scheduler

  /** A notice that the login was rejected, in any letter case and anywhere in its text. */
  ghost predicate RejectsLogin(m: IrcMessage) {
    && m.command == "NOTICE" && m.parameters != []
    && var text := m.parameters[|m.parameters| - 1];
       HasWord(text, "login authentication failed") || HasWord(text, "improperly formatted auth")
  }

  ghost predicate RefusesCapabilities(m: IrcMessage) {
    m.command == "CAP" && |m.parameters| >= 2 && m.parameters[1] == "NAK"
  }

  lemma LoginFailureExactly(m: IrcMessage)
    ensures IsLoginFailure(m) <==> RejectsLogin(m)
  {
    hide HasWord, Contains, Lower;
    if m.parameters != [] {
      var text := m.parameters[|m.parameters| - 1];
      LowerContainsIsWord(text, "login authentication failed");
      LowerContainsIsWord(text, "improperly formatted auth");
    }
  }

  /** Why a message ends the session that handles it, if it does. */
  ghost function Verdict(m: IrcMessage): Option<EndReason> {
    if m.command == "PING" then
      if m.parameters != [] && |m.parameters[0]| > 504 then Some(NetworkError) else None
    else if m.command == "RECONNECT" then Some(EndReason.ReconnectRequested)
    else if RejectsLogin(m) || RefusesCapabilities(m) then Some(Fatal)
    else None
  }

  ghost predicate Plain(actions: seq<Action>) {
    forall i | 0 <= i < |actions| :: actions[i].Send? || actions[i].BecameReady?
  }

  /** The protocol's actions give exactly this verdict. */
  lemma ActionsGiveVerdict(config: RuntimeConfig, p: Negotiation, m: IrcMessage)
    requires Validated(config) && (m.parameters != [] ==> !HasLineBreak(m.parameters[0]))
    ensures var r := AfterHandle(config, p, m).1;
            match Verdict(m)
            case None => r.Ok? && Plain(r.value)
            case Some(NetworkError) => r.Thrown?
            case Some(ReconnectRequested) => r == Ok([Reconnect])
            case Some(Fatal) => r == Ok([GiveUp])
            case Some(Stopped) => false
  {
    hide RejectsLogin, IsLoginFailure, ValidNames, ValidToken, ValidSettings, JoinActions, AckAll, Tokens, HasLineBreak,
      EncodeIrcLine;
    LoginFailureExactly(m);
    if m.command == "PING" && m.parameters != [] {
      hide ParseLine;
      PongReadBack(m.parameters[0]);
    }
    ValidNamesJoin(config.channels);
  }

  /** One message: it welcomes the session if and only if it is 001 or GLOBALUSERSTATE; the
      session is failed after it if and only if it rejects the login or the capabilities, or
      the session was failed before and it is neither RECONNECT nor an ACK. */
  lemma OneMessage(config: RuntimeConfig, p: Negotiation, m: IrcMessage)
    ensures var p' := AfterHandle(config, p, m).0;
            && (p'.authenticated <==> p.authenticated || m.command == "001" || m.command == "GLOBALUSERSTATE")
            && (p'.state.Failed? <==>
                  || RejectsLogin(m) || RefusesCapabilities(m)
                  || (p.state.Failed? && m.command != "RECONNECT"
                      && !(m.command == "CAP" && |m.parameters| >= 2 && m.parameters[1] == "ACK")))
            && (p'.state.ReconnectRequested? <==>
                  || m.command == "RECONNECT"
                  || (p.state.ReconnectRequested? && !RejectsLogin(m) && !RefusesCapabilities(m)
                      && !(m.command == "CAP" && |m.parameters| >= 2 && m.parameters[1] == "ACK")))
  {
    hide HasWord, IsLoginFailure, JoinActions, AckAll, Tokens, EncodeIrcLine;
    LoginFailureExactly(m);
  }

  /** A message whose text holds the words in any case makes the protocol give up. */
  lemma RejectedLogin(config: RuntimeConfig, p: Negotiation, m: IrcMessage, a: string, w: string, b: string)
    requires m.command == "NOTICE" && m.parameters != [] && m.parameters[|m.parameters| - 1] == a + w + b
    requires Spells(w, "login authentication failed") || Spells(w, "improperly formatted auth")
    ensures AfterHandle(config, p, m) == (p.(state := Failed), Ok([GiveUp]))
  {
    hide IsLoginFailure, JoinActions, AckAll, Tokens, EncodeIrcLine, Spells;
    LoginFailureExactly(m);
    assert m.parameters[|m.parameters| - 1] == a + w + b;
  }

  // ---------------------------------------------------------------------------
  // Lines as Twitch sends them
  // ---------------------------------------------------------------------------

  lemma ServerLine(command: string, middle: seq<string>, trailing: Option<string>, line: string)
    requires var w := Wire([], Some(SERVER), command, middle, trailing);
             Shaped(w) && line == Print(w) && |line| <= 8_192 && |middle| <= 32
    ensures ParseLine(line) == Some(IrcMessage(map[], SERVER, Upper(command),
                                               middle + (if trailing.None? then [] else [trailing.value])))
  {
    hide ParseLine, Shaped, Print;
    ParseInvertsPrint(Wire([], Some(SERVER), command, middle, trailing));
  }

  lemma OneLineIsClean(s: string)
    ensures OneLine(s) ==> !HasLineBreak(s)
  {
  }

  lemma OneMiddle(p: string)
    ensures PrintMiddle([p]) == " " + p && PrintMiddle([]) == ""
  {
    assert [p][1..] == [];
  }

  lemma TwoMiddles(p: string, q: string)
    ensures PrintMiddle([p, q]) == " " + p + " " + q
  {
    hide PrintMiddle;
    OneMiddle(q);
    MiddleCons(p, [q]);
    assert [p] + [q] == [p, q];
    assert " " + p + (" " + q) == " " + p + " " + q;
  }

  lemma MiddleCons(p: string, more: seq<string>)
    ensures PrintMiddle([p] + more) == " " + p + PrintMiddle(more)
  {
    assert ([p] + more)[1..] == more;
  }

  lemma ServerLineIs(command: string, middle: seq<string>, text: string, head: string)
    requires head == ":" + SERVER + " " + command + PrintMiddle(middle) + " :"
    ensures Print(Wire([], Some(SERVER), command, middle, Some(text))) == head + text
  {
    hide PrintMiddle;
    var w := Wire([], Some(SERVER), command, middle, Some(text));
    assert PrintFromCommand(w) == command + (PrintMiddle(middle) + (" :" + text));
    assert Print(w) == ":" + SERVER + " " + PrintFromCommand(w);
  }

  lemma CommandsAreUpper()
    ensures Upper("NOTICE") == "NOTICE" && Upper("CAP") == "CAP" && Upper("001") == "001"
    ensures AllAlnum("NOTICE") && AllAlnum("CAP") && AllAlnum("001")
  {
  }

  lemma RejectedParses()
    ensures ParseLine(REJECTED_LINE) == Some(IrcMessage(map[], SERVER, "NOTICE", ["*", REJECTED]))
  {
    hide ParseLine, PrintMiddle, Upper, AllAlnum, Print, HasLineBreak;
    OneMiddle("*");
    CommandsAreUpper();
    RejectedHead();
    RejectedText();
    RejectedIsOneLine();
    SmallWords();
    OneLineIsClean(REJECTED);
    OneLineIsClean(SERVER);
    OneLineIsClean("*");
    ServerLineIs("NOTICE", ["*"], REJECTED, ":tmi.twitch.tv NOTICE * :");
    ServerLine("NOTICE", ["*"], Some(REJECTED), REJECTED_LINE);
    assert ["*"] + [REJECTED] == ["*", REJECTED];
  }

  /** The line with which Twitch rejects a token. */
  lemma TwitchRejectsLogin(config: RuntimeConfig, p: Negotiation)
    ensures ParseLine(":tmi.twitch.tv NOTICE * :Login authentication failed").Some?
    ensures AfterHandle(config, p, ParseLine(":tmi.twitch.tv NOTICE * :Login authentication failed").value)
            == (p.(state := Failed), Ok([GiveUp]))
  {
    hide ParseLine, AfterHandle, Spells;
    RejectedParses();
    RejectedSpells();
    assert "" + REJECTED + "" == REJECTED;
    RejectedLogin(config, p, IrcMessage(map[], SERVER, "NOTICE", ["*", REJECTED]), "", REJECTED, "");
  }

  lemma RejectedSpells()
    ensures Spells(REJECTED, "login authentication failed")
  {
  }

  const ACK_MESSAGE := IrcMessage(map[], SERVER, "CAP", ["*", "ACK", CAPABILITIES])
  const WELCOME_MESSAGE := IrcMessage(map[], SERVER, "001", ["bot", WELCOMED])

  lemma AckParses()
    ensures ParseLine(ACK_LINE) == Some(ACK_MESSAGE)
  {
    hide ParseLine, PrintMiddle, Upper, AllAlnum, Print, HasLineBreak;
    TwoMiddles("*", "ACK");
    CommandsAreUpper();
    AckPieces();
    AckHead();
    CapabilitiesAreClean();
    SmallWords();
    OneLineIsClean(SERVER);
    OneLineIsClean("*");
    OneLineIsClean("ACK");
    ServerLineIs("CAP", ["*", "ACK"], CAPABILITIES, ":tmi.twitch.tv CAP * ACK :");
    ServerLine("CAP", ["*", "ACK"], Some(CAPABILITIES), ACK_LINE);
    assert ["*", "ACK"] + [CAPABILITIES] == ["*", "ACK", CAPABILITIES];
  }

  lemma AckPieces()
    ensures ACK_LINE == ":tmi.twitch.tv CAP * ACK :" + CAPABILITIES
  {
    CapReqRest();
    AckText();
    AckMiddle();
    Regroup(":tmi.twitch.tv CAP * ACK :", MEMBERSHIP, TAGS, COMMANDS);
  }

  lemma CapabilitiesAreClean()
    ensures !HasLineBreak(CAPABILITIES)
  {
    hide HasLineBreak;
    CapabilitiesAreOneLine();
    SmallWords();
    OneLineIsClean(MEMBERSHIP);
    OneLineIsClean(" ");
    OneLineIsClean(TAGS);
    OneLineIsClean(COMMANDS);
    NoBreakConcat(MEMBERSHIP, " ");
    NoBreakConcat(MEMBERSHIP + " ", TAGS);
    NoBreakConcat(MEMBERSHIP + " " + TAGS, " ");
    NoBreakConcat(MEMBERSHIP + " " + TAGS + " ", COMMANDS);
  }

  lemma WelcomeParses()
    ensures ParseLine(WELCOME_LINE) == Some(WELCOME_MESSAGE)
  {
    hide ParseLine, PrintMiddle, Upper, AllAlnum, Print, HasLineBreak;
    OneMiddle("bot");
    CommandsAreUpper();
    WelcomeHead();
    WelcomeText();
    SmallWords();
    OneLineIsClean(WELCOMED);
    OneLineIsClean(SERVER);
    OneLineIsClean("bot");
    ServerLineIs("001", ["bot"], WELCOMED, ":tmi.twitch.tv 001 bot :");
    ServerLine("001", ["bot"], Some(WELCOMED), WELCOME_LINE);
    assert ["bot"] + [WELCOMED] == ["bot", WELCOMED];
  }

  lemma AckStep(config: RuntimeConfig, p: Negotiation)
    requires p.acknowledged == {} && !p.state.Ready?
    ensures AfterHandle(config, p, ACK_MESSAGE).0
            == Negotiation(if p.authenticated then Ready else CapabilityNegotiation, p.authenticated, REQUIRED)
  {
    hide Tokens, JoinActions, AckAll, EncodeIrcLine;
    CapabilityWords();
    AllGranted();
  }

  lemma WelcomeStep(config: RuntimeConfig, p: Negotiation)
    requires p.state.Authenticating? || p.state.CapabilityNegotiation?
    ensures AfterHandle(config, p, WELCOME_MESSAGE).0
            == Negotiation(if REQUIRED <= p.acknowledged then Ready else p.state, true, p.acknowledged)
  {
    hide Tokens, JoinActions, AckAll, EncodeIrcLine;
  }

  lemma RunTwo(config: RuntimeConfig, p: Negotiation, a: IrcMessage, b: IrcMessage)
    ensures Run(config, p, [a, b]) == AfterHandle(config, AfterHandle(config, p, a).0, b).0
  {
    hide AfterHandle;
    assert [a, b][..1] == [a] && [a][..0] == [];
    assert Run(config, p, [a]) == AfterHandle(config, p, a).0;
  }

  /** The two lines of a successful login, in either order, make the session ready. */
  lemma TwitchMakesReady(config: RuntimeConfig)
    ensures ParseLine(":tmi.twitch.tv CAP * ACK :twitch.tv/membership twitch.tv/tags twitch.tv/commands").Some?
    ensures ParseLine(":tmi.twitch.tv 001 bot :Welcome, GLHF!").Some?
    ensures var ack := ParseLine(":tmi.twitch.tv CAP * ACK :twitch.tv/membership twitch.tv/tags twitch.tv/commands").value;
            var welcome := ParseLine(":tmi.twitch.tv 001 bot :Welcome, GLHF!").value;
            var start := AfterBegin(config, NEW_NEGOTIATION).0;
            && Run(config, start, [ack, welcome]).state.Ready?
            && Run(config, start, [welcome, ack]).state.Ready?
  {
    hide ParseLine, AfterHandle, Run, EncodeIrcLine;
    AckParses();
    WelcomeParses();
    var start := AfterBegin(config, NEW_NEGOTIATION).0;
    RunTwo(config, start, ACK_MESSAGE, WELCOME_MESSAGE);
    RunTwo(config, start, WELCOME_MESSAGE, ACK_MESSAGE);
    AckStep(config, start);
    WelcomeStep(config, AfterHandle(config, start, ACK_MESSAGE).0);
    WelcomeStep(config, start);
    AckStep(config, AfterHandle(config, start, WELCOME_MESSAGE).0);
  }
}
