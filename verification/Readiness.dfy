/** When exactly a session becomes ready, over every sequence of server messages. */
module Readiness {
  import opened IrcText
  import opened IrcMessages
  import opened RateLimits
  import opened Configuration
  import opened Protocol

  /** The negotiation state after a sequence of messages. */
  function Run(config: RuntimeConfig, p: Negotiation, ms: seq<IrcMessage>): Negotiation {
    if ms == [] then p
    else AfterHandle(config, Run(config, p, ms[..|ms| - 1]), ms[|ms| - 1]).0
  }

  // ---------------------------------------------------------------------------
  // What the messages say, independently of the state machine
  // ---------------------------------------------------------------------------

  /** Messages after which the protocol gives the session up. */
  predicate Breaks(m: IrcMessage) {
    m.command == "RECONNECT" || IsLoginFailure(m) || IsCap(m, "NAK")
  }

  function AckTokens(m: IrcMessage): seq<string> {
    if IsCap(m, "ACK") then Tokens(m.parameters[|m.parameters| - 1]) else []
  }

  /** All words of all ACKs, in order. */
  function Mentions(ms: seq<IrcMessage>): seq<string> {
    if ms == [] then [] else Mentions(ms[..|ms| - 1]) + AckTokens(ms[|ms| - 1])
  }

  /** The last mention of a capability was without the minus sign. */
  ghost predicate LastMentionGrants(words: seq<string>, capability: string) {
    exists i :: 0 <= i < |words| && words[i] == capability &&
                forall j | i < j < |words| :: words[j] != "-" + capability
  }

  ghost predicate Welcomed(ms: seq<IrcMessage>) {
    exists i :: 0 <= i < |ms| && IsWelcome(ms[i])
  }

  ghost predicate Satisfied(ms: seq<IrcMessage>) {
    && Welcomed(ms)
    && LastMentionGrants(Mentions(ms), "twitch.tv/membership")
    && LastMentionGrants(Mentions(ms), "twitch.tv/tags")
    && LastMentionGrants(Mentions(ms), "twitch.tv/commands")
  }

  /** No breaking message, or a CAP ACK after the last of them. */
  ghost predicate Alive(ms: seq<IrcMessage>) {
    forall i | 0 <= i < |ms| && Breaks(ms[i]) :: exists j :: i < j < |ms| && IsCap(ms[j], "ACK")
  }

  // ---------------------------------------------------------------------------
  // The fold over the words is "last mention wins"
  // ---------------------------------------------------------------------------

  lemma {:induction false} AckAllAppend(acked: set<string>, a: seq<string>, b: seq<string>)
    ensures AckAll(acked, a + b) == AckAll(AckAll(acked, a), b)
    decreases |a|
  {
    if a == [] {
      assert a + b == b;
    } else {
      assert (a + b)[1..] == a[1..] + b;
      AckAllAppend(AckToken(acked, a[0]), a[1..], b);
    }
  }

  lemma {:induction false} LastMentionWins(words: seq<string>, capability: string)
    requires capability != "" && capability[0] != '-'
    ensures capability in AckAll({}, words) <==> LastMentionGrants(words, capability)
  {
    if words != [] {
      var n := |words| - 1;
      var front, last := words[..n], words[n];
      assert words == front + [last];
      AckAllAppend({}, front, [last]);
      AckOne(AckAll({}, front), last);
      LastMentionWins(front, capability);
      MinusIsOther(capability);
      if last == capability {
        assert LastMentionGrants(words, capability);
      } else if last == "-" + capability {
        assert last[1..] == capability;
        assert !LastMentionGrants(words, capability);
      } else {
        LastIsOther(words, capability);
        if last != "" && last[0] == '-' {
          assert last == "-" + last[1..];
        }
      }
    }
  }

  lemma AckOne(acked: set<string>, word: string)
    ensures AckAll(acked, [word]) == AckToken(acked, word)
  {
    assert |[word][1..]| == 0;
  }

  lemma MinusIsOther(capability: string)
    ensures "-" + capability != capability
  {
    assert |"-" + capability| == |capability| + 1;
  }

  lemma LastIsOther(words: seq<string>, capability: string)
    requires words != []
    requires words[|words| - 1] != capability && words[|words| - 1] != "-" + capability
    ensures LastMentionGrants(words, capability) <==> LastMentionGrants(words[..|words| - 1], capability)
  {
    var n := |words| - 1;
    var front := words[..n];
    if LastMentionGrants(front, capability) {
      var i :| 0 <= i < n && front[i] == capability && forall j | i < j < n :: front[j] != "-" + capability;
      assert words[i] == capability;
      forall j | i < j < |words|
        ensures words[j] != "-" + capability
      {
        if j < n {
          assert words[j] == front[j];
        }
      }
    }
    if LastMentionGrants(words, capability) {
      var i :| 0 <= i < |words| && words[i] == capability && forall j | i < j < |words| :: words[j] != "-" + capability;
      assert front[i] == capability;
      forall j | i < j < n
        ensures front[j] != "-" + capability
      {
        assert words[j] == front[j];
      }
    }
  }

  // ---------------------------------------------------------------------------
  // The run
  // ---------------------------------------------------------------------------

  /** What does not depend on the ready state: the two remembered facts. */
  lemma {:induction false} Remembers(config: RuntimeConfig, ms: seq<IrcMessage>)
    ensures var p := Run(config, AfterBegin(config, NEW_NEGOTIATION).0, ms);
            p.acknowledged == AckAll({}, Mentions(ms)) && (p.authenticated <==> Welcomed(ms))
  {
    hide Tokens, IsLoginFailure, JoinActions, AckToken;
    if ms != [] {
      var n := |ms| - 1;
      var m := ms[n];
      Remembers(config, ms[..n]);
      AckAllAppend({}, Mentions(ms[..n]), AckTokens(m));
      WelcomedSnoc(ms);
      NothingAcked(Run(config, AfterBegin(config, NEW_NEGOTIATION).0, ms[..n]).acknowledged);
      StepRemembers(config, Run(config, AfterBegin(config, NEW_NEGOTIATION).0, ms[..n]), m);
    }
  }

  lemma NothingAcked(acked: set<string>)
    ensures AckAll(acked, []) == acked
  {
  }

  lemma WelcomedSnoc(ms: seq<IrcMessage>)
    requires ms != []
    ensures Welcomed(ms) <==> Welcomed(ms[..|ms| - 1]) || IsWelcome(ms[|ms| - 1])
  {
    var n := |ms| - 1;
    if Welcomed(ms[..n]) {
      var i :| 0 <= i < n && IsWelcome(ms[..n][i]);
      assert IsWelcome(ms[i]);
    }
    if i :| 0 <= i < n && IsWelcome(ms[i]) {
      assert IsWelcome(ms[..n][i]);
    }
  }

  lemma StepRemembers(config: RuntimeConfig, p: Negotiation, m: IrcMessage)
    ensures AfterHandle(config, p, m).0.acknowledged == AckAll(p.acknowledged, AckTokens(m))
    ensures AfterHandle(config, p, m).0.authenticated <==> p.authenticated || IsWelcome(m)
  {
    hide Tokens, JoinActions, AckToken, Lower, Contains;
    NothingAcked(p.acknowledged);
  }

  lemma AliveFront(ms: seq<IrcMessage>)
    requires ms != [] && Alive(ms)
    ensures !Breaks(ms[|ms| - 1]) && (Alive(ms[..|ms| - 1]) || IsCap(ms[|ms| - 1], "ACK"))
  {
    hide Breaks, IsCap;
    var n := |ms| - 1;
    var front := ms[..n];
    if !IsCap(ms[n], "ACK") {
      forall i | 0 <= i < n && Breaks(front[i])
        ensures exists j :: i < j < n && IsCap(front[j], "ACK")
      {
        assert Breaks(ms[i]);
        var j :| i < j < |ms| && IsCap(ms[j], "ACK");
        assert front[j] == ms[j];
      }
    }
  }

  lemma AliveMore(ms: seq<IrcMessage>)
    requires ms != [] && !Breaks(ms[|ms| - 1]) && (Alive(ms[..|ms| - 1]) || IsCap(ms[|ms| - 1], "ACK"))
    ensures Alive(ms)
  {
    hide Breaks, IsCap;
    var n := |ms| - 1;
    var front := ms[..n];
    forall i | 0 <= i < |ms| && Breaks(ms[i])
      ensures exists j :: i < j < |ms| && IsCap(ms[j], "ACK")
    {
      if !IsCap(ms[n], "ACK") {
        assert Breaks(front[i]);
        var j :| i < j < n && IsCap(front[j], "ACK");
        assert ms[j] == front[j];
      }
    }
  }

  lemma AliveSnoc(ms: seq<IrcMessage>)
    requires ms != []
    ensures Alive(ms) <==> !Breaks(ms[|ms| - 1]) && (Alive(ms[..|ms| - 1]) || IsCap(ms[|ms| - 1], "ACK"))
  {
    hide Breaks, IsCap, Alive;
    if Alive(ms) {
      AliveFront(ms);
    } else if !Breaks(ms[|ms| - 1]) && (Alive(ms[..|ms| - 1]) || IsCap(ms[|ms| - 1], "ACK")) {
      AliveMore(ms);
    }
  }

  /** The three facts that decide the state. */
  ghost predicate Settled(p: Negotiation, alive: bool) {
    && !p.state.Disconnected? && !p.state.TlsConnected?
    && (p.state.Ready? <==> p.authenticated && REQUIRED <= p.acknowledged && alive)
    && (alive <==> !p.state.Failed? && !p.state.ReconnectRequested?)
  }

  lemma StepSettles(config: RuntimeConfig, p: Negotiation, m: IrcMessage, alive: bool)
    requires Settled(p, alive)
    ensures Settled(AfterHandle(config, p, m).0, !Breaks(m) && (alive || IsCap(m, "ACK")))
  {
    hide Tokens, JoinActions, AckAll, Lower, Contains, EncodeIrcLine;
  }

  lemma {:induction false} RunSettles(config: RuntimeConfig, ms: seq<IrcMessage>)
    ensures Settled(Run(config, AfterBegin(config, NEW_NEGOTIATION).0, ms), Alive(ms))
  {
    hide AfterHandle, Breaks, IsCap, EncodeIrcLine;
    if ms != [] {
      RunSettles(config, ms[..|ms| - 1]);
      AliveSnoc(ms);
      StepSettles(config, Run(config, AfterBegin(config, NEW_NEGOTIATION).0, ms[..|ms| - 1]), ms[|ms| - 1],
                  Alive(ms[..|ms| - 1]));
    }
  }

  /** Exact readiness: after any messages the session is ready if and only if it was
      welcomed, the last mention of each required capability grants it, and no breaking
      message came without a CAP ACK after it. */
  lemma ReadyExactly(config: RuntimeConfig, ms: seq<IrcMessage>)
    ensures Run(config, AfterBegin(config, NEW_NEGOTIATION).0, ms).state.Ready?
            <==> Satisfied(ms) && Alive(ms)
  {
    hide AfterHandle, AfterBegin, Breaks, IsCap, LastMentionGrants, Mentions, AckAll, Run, Alive, Welcomed;
    Remembers(config, ms);
    RunSettles(config, ms);
    LastMentionWins(Mentions(ms), MEMBERSHIP);
    LastMentionWins(Mentions(ms), TAGS);
    LastMentionWins(Mentions(ms), COMMANDS);
  }

  predicate EmitsReady(config: RuntimeConfig, p: Negotiation, m: IrcMessage) {
    var r := AfterHandle(config, p, m).1;
    r.Ok? && BecameReady in r.value
  }

  lemma {:induction false} ValidNamesJoin(channels: seq<string>)
    requires ValidNames(channels)
    ensures JoinActions(channels).Ok? && |JoinActions(channels).value| == |channels|
    ensures forall i | 0 <= i < |channels| ::
              JoinActions(channels).value[i] == Send("JOIN #" + channels[i] + "\r\n", Join, channels[i])
  {
    hide ValidLogin, HasLineBreak;
    if channels != [] {
      var n := |channels| - 1;
      ValidNamesJoin(channels[..n]);
      JoinFits(channels[n]);
    }
  }

  lemma StepEmits(config: RuntimeConfig, p: Negotiation, m: IrcMessage, alive: bool)
    requires Settled(p, alive) && ValidNames(config.channels)
    ensures EmitsReady(config, p, m)
            <==> AfterHandle(config, p, m).0.state.Ready? && (!p.state.Ready? || IsCap(m, "ACK"))
  {
    hide Tokens, JoinActions, AckAll, Lower, Contains, EncodeIrcLine, ValidNames;
    ValidNamesJoin(config.channels);
  }

  /** A ready batch is emitted while handling a message exactly when the session is then
      ready and either was not before or the message is a CAP ACK: first at the first
      satisfying prefix, later only at CAP ACKs. */
  lemma ReadyBatchExactly(config: RuntimeConfig, ms: seq<IrcMessage>, m: IrcMessage)
    requires Validated(config)
    ensures EmitsReady(config, Run(config, AfterBegin(config, NEW_NEGOTIATION).0, ms), m)
            <==> Satisfied(ms + [m]) && Alive(ms + [m]) && (!(Satisfied(ms) && Alive(ms)) || IsCap(m, "ACK"))
  {
    hide AfterHandle, AfterBegin, Satisfied, Alive, IsCap, EmitsReady, ValidNames, ValidSettings;
    assert (ms + [m])[..|ms|] == ms;
    ReadyExactly(config, ms);
    ReadyExactly(config, ms + [m]);
    RunSettles(config, ms);
    StepEmits(config, Run(config, AfterBegin(config, NEW_NEGOTIATION).0, ms), m, Alive(ms));
  }

  /** A ready batch is the ready action and one JOIN for each configured channel, in order. */
  lemma ReadyBatchContents(config: RuntimeConfig, p: Negotiation, m: IrcMessage)
    requires Validated(config) && EmitsReady(config, p, m)
    ensures var batch := AfterHandle(config, p, m).1.value;
            && |batch| == 1 + |config.channels| && batch[0] == BecameReady
            && forall i | 0 <= i < |config.channels| ::
                 batch[i + 1] == Send("JOIN #" + config.channels[i] + "\r\n", Join, config.channels[i])
  {
    hide Tokens, JoinActions, AckAll, Lower, Contains, EncodeIrcLine, ValidNames, ValidSettings, ValidToken;
    ValidNamesJoin(config.channels);
  }

  /** Without breaking messages the only condition left is satisfaction. */
  lemma UnbrokenReadiness(config: RuntimeConfig, ms: seq<IrcMessage>)
    requires forall i | 0 <= i < |ms| :: !Breaks(ms[i])
    ensures Run(config, AfterBegin(config, NEW_NEGOTIATION).0, ms).state.Ready? <==> Satisfied(ms)
  {
    hide AfterHandle, AfterBegin, Satisfied, Run;
    ReadyExactly(config, ms);
  }

  predicate IsWord(s: string) {
    s != "" && forall i | 0 <= i < |s| :: !IsSpace(s[i])
  }

  lemma {:induction false} SpaceAfterWord(word: string, rest: string)
    requires forall i | 0 <= i < |word| :: !IsSpace(word[i])
    requires rest == "" || IsSpace(rest[0])
    ensures SpaceAt(word + rest) == |word|
  {
    if word == "" {
      assert word + rest == rest;
    } else {
      assert (word + rest)[1..] == word[1..] + rest;
      SpaceAfterWord(word[1..], rest);
    }
  }

  /** Words separated by one space are read back. */
  lemma FirstWord(word: string, rest: string)
    requires IsWord(word) && (rest == "" || IsSpace(rest[0]))
    ensures Tokens(word + rest) == [word] + Tokens(rest)
  {
    SpaceAfterWord(word, rest);
    assert TrimLeft(word + rest) == word + rest;
    assert (word + rest)[..|word|] == word && (word + rest)[|word|..] == rest;
  }

  lemma SpaceSkipped(s: string)
    ensures Tokens(" " + s) == Tokens(s)
  {
    assert (" " + s)[1..] == s;
    TrimTwice(" " + s);
    TrimTwice(s);
  }

  /** Words with blanks between them and around them. */
  function Woven(words: seq<string>, gaps: seq<string>): string
    requires |gaps| == |words| + 1
  {
    gaps[0] + if words == [] then "" else words[0] + Woven(words[1..], gaps[1..])
  }

  ghost predicate Separate(gaps: seq<string>) {
    && (forall i | 0 <= i < |gaps| :: AllSpace(gaps[i]))
    && (forall i | 0 < i < |gaps| - 1 :: gaps[i] != "")
  }

  predicate AllSpace(s: string) {
    forall i | 0 <= i < |s| :: IsSpace(s[i])
  }

  lemma {:induction false} SpacesSkipped(gap: string, s: string)
    requires AllSpace(gap)
    ensures Tokens(gap + s) == Tokens(s)
  {
    if gap == "" {
      assert gap + s == s;
    } else {
      assert (gap + s)[1..] == gap[1..] + s;
      TrimTwice(gap + s);
      TrimTwice(gap[1..] + s);
      SpacesSkipped(gap[1..], s);
    }
  }

  /** The words of an ACK are read whatever blanks are between them. */
  lemma {:induction false} WovenWords(words: seq<string>, gaps: seq<string>)
    requires |gaps| == |words| + 1 && Separate(gaps)
    requires forall i | 0 <= i < |words| :: IsWord(words[i])
    ensures Tokens(Woven(words, gaps)) == words
  {
    hide Tokens, IsWord, AllSpace;
    assert AllSpace(gaps[0]);
    if words == [] {
      SpacesSkipped(gaps[0], "");
      NoWords();
    } else {
      var rest := Woven(words[1..], gaps[1..]);
      SpacesSkipped(gaps[0], words[0] + rest);
      WovenStarts(words[1..], gaps[1..]);
      FirstWord(words[0], rest);
      if words[1..] == [] {
        SpacesSkipped(gaps[1], "");
        NoWords();
        assert rest == gaps[1] + "";
      } else {
        WovenWords(words[1..], gaps[1..]);
      }
    }
  }

  /** What follows a word starts with a blank, or is nothing. */
  lemma WovenStarts(words: seq<string>, gaps: seq<string>)
    requires |gaps| == |words| + 1 && AllSpace(gaps[0]) && (words != [] ==> gaps[0] != "")
    ensures Woven(words, gaps) == "" || IsSpace(Woven(words, gaps)[0])
  {
    if words == [] {
      assert gaps[0] + "" == gaps[0];
    }
  }

  const CAPABILITIES := MEMBERSHIP + " " + TAGS + " " + COMMANDS

  lemma CapabilityWords()
    ensures Tokens(CAPABILITIES) == [MEMBERSHIP, TAGS, COMMANDS]
  {
    hide Tokens;
    assert IsWord(MEMBERSHIP) && IsWord(TAGS) && IsWord(COMMANDS);
    assert CAPABILITIES == MEMBERSHIP + (" " + (TAGS + (" " + COMMANDS)));
    FirstWord(MEMBERSHIP, " " + (TAGS + (" " + COMMANDS)));
    SpaceSkipped(TAGS + (" " + COMMANDS));
    FirstWord(TAGS, " " + COMMANDS);
    SpaceSkipped(COMMANDS);
    FirstWord(COMMANDS, "");
    assert COMMANDS + "" == COMMANDS;
    NoWords();
  }

  lemma NoWords()
    ensures Tokens("") == []
  {
  }

  lemma AllGranted()
    ensures AckAll({}, [MEMBERSHIP, TAGS, COMMANDS]) == REQUIRED
  {
    hide AckAll;
    assert [MEMBERSHIP, TAGS, COMMANDS] == [MEMBERSHIP] + [TAGS] + [COMMANDS];
    AckAllAppend({}, [MEMBERSHIP] + [TAGS], [COMMANDS]);
    AckAllAppend({}, [MEMBERSHIP], [TAGS]);
    AckOne({}, MEMBERSHIP);
    AckOne({MEMBERSHIP}, TAGS);
    AckOne({MEMBERSHIP, TAGS}, COMMANDS);
    assert AckToken({}, MEMBERSHIP) == {MEMBERSHIP};
    assert AckToken({MEMBERSHIP}, TAGS) == {MEMBERSHIP, TAGS};
    assert AckToken({MEMBERSHIP, TAGS}, COMMANDS) == REQUIRED;
  }

  const NAK := IrcMessage(map[], "", "CAP", ["*", "NAK"])
  const WELCOME := IrcMessage(map[], "", "001", [])
  const GRANT := IrcMessage(map[], "", "CAP", ["*", "ACK", CAPABILITIES])

  /** The failed state alone does not absorb: after a NAK, a welcome and a CAP ACK make the
      protocol object ready. Closing the session is what makes a failure final. */
  lemma FailedIsNotAbsorbing(config: RuntimeConfig)
    ensures Run(config, AfterBegin(config, NEW_NEGOTIATION).0, [NAK]).state.Failed?
    ensures Run(config, AfterBegin(config, NEW_NEGOTIATION).0, [NAK, WELCOME, GRANT]).state.Ready?
  {
    hide Tokens, JoinActions, AckAll, EncodeIrcLine;
    var start := AfterBegin(config, NEW_NEGOTIATION).0;
    CapabilityWords();
    AllGranted();
    var p1 := AfterHandle(config, start, NAK).0;
    var p2 := AfterHandle(config, p1, WELCOME).0;
    assert p1.state.Failed? && p2.state.Failed? && p2.authenticated && p2.acknowledged == {};
    assert [NAK, WELCOME, GRANT][..2] == [NAK, WELCOME] && [NAK, WELCOME][..1] == [NAK];
    assert |[NAK][..0]| == 0;
    assert Run(config, start, [NAK]) == p1;
    assert Run(config, start, [NAK, WELCOME]) == p2;
  }
}
