/** Normalisation of configured names, the validated configuration, and the length
    budget that follows from it. */
module Configuration {
  import opened Basics
  import opened IrcText
  import opened IrcMessages
  import opened IrcRoundTrip
  import opened RateLimits
  import opened TwitchTexts

  datatype MessageRule = MessageRule(
    enabled: bool,
    sender: string,
    channel: Option<string>,
    contains: string,
    response: string,
    delay: Time,
    cooldown: Time)

  datatype HypeSettings = HypeSettings(
    enabled: bool,
    channel: string,
    subscriptionMessages: seq<string>,
    giftMessages: seq<string>,
    delay: Time,
    cooldown: Time)

  datatype BotSettings = BotSettings(messageRules: seq<MessageRule>, hype: HypeSettings)

  datatype RuntimeConfig = RuntimeConfig(
    username: string,
    oauthToken: string,
    channels: seq<string>,
    bot: BotSettings)

  // ---------------------------------------------------------------------------
  // Normalisation
  // ---------------------------------------------------------------------------

  function TrimLeft(s: string): (r: string)
    ensures |r| <= |s|
  {
    if s != "" && IsSpace(s[0]) then TrimLeft(s[1..]) else s
  }

  function TrimRight(s: string): string {
    if s != "" && IsSpace(s[|s| - 1]) then TrimRight(s[..|s| - 1]) else s
  }

  function Trim(s: string): string {
    TrimRight(TrimLeft(s))
  }

  predicate IsLoginChar(c: char) {
    IsLower(c) || IsDigit(c) || c == '_'
  }

  /** The names that the pattern of the program matches. */
  predicate ValidLogin(s: string) {
    1 <= |s| <= 25 && forall i | 0 <= i < |s| :: IsLoginChar(s[i])
  }

  function NormalizeLogin(value: string): Result<string> {
    var r := Lower(Trim(value));
    if ValidLogin(r) then Ok(r) else Thrown
  }

  function NormalizeChannel(value: string): Result<string> {
    var r := Trim(value);
    NormalizeLogin(if r != "" && r[0] == '#' then r[1..] else r)
  }

  predicate IsTokenChar(c: char) {
    IsAlnum(c) || c == '_' || c == '-'
  }

  predicate AllTokenChars(s: string) {
    forall i | 0 <= i < |s| :: IsTokenChar(s[i])
  }

  function NormalizeOauthToken(value: string): Result<string> {
    var given := Trim(value);
    if HasLineBreak(given) then Thrown
    else
      var token := if "oauth:" <= given then given[6..] else given;
      if token == "replace_me" || token == "your_user_access_token" || |token| < 10 then Thrown
      else if !AllTokenChars(token) then Thrown
      else if EncodeIrcLine("PASS " + ("oauth:" + token)).Thrown? then Thrown
      else Ok("oauth:" + token)
  }

  lemma TrimNothing(s: string)
    requires s != "" && !IsSpace(s[0]) && !IsSpace(s[|s| - 1])
    ensures Trim(s) == s
  {
  }

  lemma LoginIsLower(s: string)
    requires ValidLogin(s)
    ensures Lower(s) == s && !IsSpace(s[0]) && !IsSpace(s[|s| - 1]) && s[0] != '#'
  {
  }

  /** Normalised names are fixed points, with or without the channel sign, and every
      accepted name is a valid one. */
  lemma NormalizedIsStable(value: string)
    ensures NormalizeLogin(value).Ok? ==> ValidLogin(NormalizeLogin(value).value)
    ensures NormalizeChannel(value).Ok? ==> ValidLogin(NormalizeChannel(value).value)
    ensures ValidLogin(value) ==>
              && NormalizeLogin(value) == Ok(value)
              && NormalizeChannel(value) == Ok(value)
              && NormalizeChannel("#" + value) == Ok(value)
  {
    hide ValidLogin, Lower;
    if ValidLogin(value) {
      LoginIsLower(value);
      assert value != "" by { LoginLength(value); }
      TrimNothing(value);
      TrimNothing("#" + value);
      assert ("#" + value)[1..] == value;
    }
  }

  lemma LoginLength(s: string)
    requires ValidLogin(s)
    ensures 1 <= |s| <= 25
  {
  }

  ghost predicate ValidToken(token: string) {
    && "oauth:" <= token && 16 <= |token| <= 505
    && forall i | 6 <= i < |token| :: IsTokenChar(token[i])
  }

  /** An accepted token is a fixed point of normalisation and fits into PASS. */
  lemma TokenIsStable(value: string)
    requires NormalizeOauthToken(value).Ok?
    ensures var token := NormalizeOauthToken(value).value;
            ValidToken(token) && NormalizeOauthToken(token) == Ok(token)
  {
    hide Trim, IsTokenChar, IsSpace;
    var given := Trim(value);
    var bare := if "oauth:" <= given then given[6..] else given;
    var token := NormalizeOauthToken(value).value;
    assert token == "oauth:" + bare && token[6..] == bare;
    forall i | 6 <= i < |token|
      ensures IsTokenChar(token[i])
    {
      assert token[i] == bare[i - 6];
    }
    TokenCharIsNoSpace(token[|token| - 1]);
    assert token[0] == 'o' && !IsSpace('o') by { TokenCharIsNoSpace('o'); }
    TrimNothing(token);
    assert !HasLineBreak(token) by { TokenHasNoBreak(token); }
  }

  lemma TokenCharIsNoSpace(c: char)
    ensures IsTokenChar(c) ==> !IsSpace(c)
    ensures !IsSpace('o')
  {
  }

  // ---------------------------------------------------------------------------
  // The channel list
  // ---------------------------------------------------------------------------

  /** The pieces between commas; nothing follows a final comma. */
  function Pieces(text: string): seq<string>
    decreases |text|
  {
    if text == "" then []
    else
      var comma := IndexOf(text, ',', 0);
      [text[..comma]] + (if comma == |text| then [] else Pieces(text[comma + 1..]))
  }

  /** Normalised channels in the order of their first mention. */
  function Deduplicated(items: seq<string>, channels: seq<string>): Result<seq<string>> {
    if items == [] then Ok(channels)
    else
      match NormalizeChannel(items[0])
      case Thrown => Thrown
      case Ok(channel) =>
        Deduplicated(items[1..], if channel in channels then channels else channels + [channel])
  }

  function ReadChannels(text: string): Result<seq<string>> {
    var r := Deduplicated(Pieces(text), []);
    if r.Ok? && 1 <= |r.value| <= 100 then r else Thrown
  }

  method ParseChannels(text: string) returns (r: Result<seq<string>>)
    ensures r == ReadChannels(text)
  {
    var seen: set<string> := {};
    var channels: seq<string> := [];
    var rest := text;
    while rest != ""
      invariant forall c :: c in seen <==> c in channels
      invariant Deduplicated(Pieces(rest), channels) == Deduplicated(Pieces(text), [])
      decreases |rest|
    {
      var comma := IndexOf(rest, ',', 0);
      var channel := NormalizeChannel(rest[..comma]);
      ghost var more := if comma == |rest| then "" else rest[comma + 1..];
      assert Pieces(rest) == [rest[..comma]] + Pieces(more);
      if channel.Thrown? {
        return Thrown;
      }
      if channel.value !in seen {
        seen := seen + {channel.value};
        channels := channels + [channel.value];
      }
      rest := if comma == |rest| then "" else rest[comma + 1..];
    }
    if |channels| == 0 || |channels| > 100 {
      return Thrown;
    }
    return Ok(channels);
  }

  ghost predicate Distinct(channels: seq<string>) {
    forall i, j | 0 <= i < j < |channels| :: channels[i] != channels[j]
  }

  ghost predicate ValidNames(channels: seq<string>) {
    forall i | 0 <= i < |channels| :: ValidLogin(channels[i])
  }

  /** The list has no duplicates, only valid names, and exactly the named channels. */
  lemma {:induction false} DeduplicatedIsSet(items: seq<string>, channels: seq<string>)
    requires Distinct(channels) && ValidNames(channels) && Deduplicated(items, channels).Ok?
    ensures var r := Deduplicated(items, channels).value;
            && channels <= r && Distinct(r) && ValidNames(r)
            && forall c :: c in r <==> c in channels || exists i :: 0 <= i < |items| && NormalizeChannel(items[i]) == Ok(c)
  {
    hide NormalizeChannel, ValidLogin;
    if items != [] {
      var channel := NormalizeChannel(items[0]).value;
      NormalizedIsStable(items[0]);
      var channels' := if channel in channels then channels else channels + [channel];
      DeduplicatedIsSet(items[1..], channels');
      var r := Deduplicated(items, channels).value;
      forall c
        ensures c in r <==> c in channels || exists i :: 0 <= i < |items| && NormalizeChannel(items[i]) == Ok(c)
      {
        assert c in channels' <==> c in channels || NormalizeChannel(items[0]) == Ok(c);
        if i :| 0 <= i < |items[1..]| && NormalizeChannel(items[1..][i]) == Ok(c) {
          assert items[i + 1] == items[1..][i];
        }
        if i :| 1 <= i < |items| && NormalizeChannel(items[i]) == Ok(c) {
          assert items[1..][i - 1] == items[i];
        }
      }
    }
  }

  // ---------------------------------------------------------------------------
  // Validated configurations
  // ---------------------------------------------------------------------------

  predicate ValidMessage(text: string) {
    1 <= |text| <= 450 && !HasLineBreak(text)
  }

  predicate ValidSeconds(value: Time, maximum: int) {
    0 <= value <= maximum * SECOND
  }

  predicate ValidRule(rule: MessageRule) {
    && ValidLogin(rule.sender)
    && (rule.channel.Some? ==> ValidLogin(rule.channel.value))
    && 1 <= |rule.contains| <= 400 && !HasLineBreak(rule.contains)
    && ValidMessage(rule.response)
    && ValidSeconds(rule.delay, 3_600) && ValidSeconds(rule.cooldown, 86_400)
  }

  ghost predicate ValidHype(hype: HypeSettings) {
    && (forall i | 0 <= i < |hype.subscriptionMessages| :: ValidMessage(hype.subscriptionMessages[i]))
    && (forall i | 0 <= i < |hype.giftMessages| :: ValidMessage(hype.giftMessages[i]))
    && ValidSeconds(hype.delay, 3_600) && ValidSeconds(hype.cooldown, 86_400)
    && (hype.enabled ==>
          ValidLogin(hype.channel) && hype.subscriptionMessages != [] && hype.giftMessages != [])
  }

  ghost predicate ValidSettings(bot: BotSettings) {
    && (forall i | 0 <= i < |bot.messageRules| :: ValidRule(bot.messageRules[i]))
    && ValidHype(bot.hype)
  }

  ghost predicate Validated(config: RuntimeConfig) {
    && ValidLogin(config.username)
    && ValidToken(config.oauthToken)
    && 1 <= |config.channels| <= 100 && Distinct(config.channels) && ValidNames(config.channels)
    && ValidSettings(config.bot)
  }

  // ---------------------------------------------------------------------------
  // The length budget
  // ---------------------------------------------------------------------------

  const MEMBERSHIP := "twitch.tv/membership"
  const TAGS := "twitch.tv/tags"
  const COMMANDS := "twitch.tv/commands"
  const CAP_REQ := "CAP REQ :" + MEMBERSHIP + " " + TAGS + " " + COMMANDS

  lemma CapReqText()
    ensures CAP_REQ == "CAP REQ :twitch.tv/membership twitch.tv/tags twitch.tv/commands"
  {
    CapReqHead();
    CapReqRest();
    CapReqJoined();
    Regroup("CAP REQ :", MEMBERSHIP, TAGS, COMMANDS);
  }

  lemma CapReqIsLegal()
    ensures EncodeIrcLine(CAP_REQ).Ok?
  {
    assert !HasLineBreak(MEMBERSHIP);
    assert !HasLineBreak(TAGS);
    assert !HasLineBreak(COMMANDS);
    assert !HasLineBreak("CAP REQ :") && !HasLineBreak(" ");
    NoBreakConcat("CAP REQ :", MEMBERSHIP);
    NoBreakConcat("CAP REQ :" + MEMBERSHIP, " ");
    NoBreakConcat("CAP REQ :" + MEMBERSHIP + " ", TAGS);
    NoBreakConcat("CAP REQ :" + MEMBERSHIP + " " + TAGS, " ");
    NoBreakConcat("CAP REQ :" + MEMBERSHIP + " " + TAGS + " ", COMMANDS);
  }

  lemma NoBreakConcat(a: string, b: string)
    ensures HasLineBreak(a + b) <==> HasLineBreak(a) || HasLineBreak(b)
  {
  }

  lemma LoginHasNoBreak(s: string)
    requires ValidLogin(s)
    ensures !HasLineBreak(s) && ' ' !in s && s[0] != '#' && s[0] != ':'
  {
  }

  lemma TokenHasNoBreak(s: string)
    requires ValidToken(s)
    ensures !HasLineBreak(s)
  {
    assert forall i | 0 <= i < 6 :: s[i] == "oauth:"[i];
    assert forall i | 0 <= i < |s| :: s[i] != '\r' && s[i] != '\n';
  }

  lemma PrivmsgFits(channel: string, text: string)
    requires ValidLogin(channel) && ValidMessage(text)
    ensures MakePrivmsg(channel, text).Ok? && |MakePrivmsg(channel, text).value| <= 486 + 2
  {
    hide HasLineBreak, IsLoginChar;
    LoginHasNoBreak(channel);
    var line := "PRIVMSG " + ("#" + channel) + " :" + text;
    assert !HasLineBreak(line) by { PlainConcat("PRIVMSG ", "#" + channel, " :", text, channel); }
  }

  lemma PlainConcat(a: string, b: string, c: string, d: string, channel: string)
    requires a == "PRIVMSG " && b == "#" + channel && c == " :"
    requires !HasLineBreak(channel) && !HasLineBreak(d)
    ensures !HasLineBreak(a + b + c + d)
  {
  }

  lemma JoinFits(channel: string)
    requires ValidLogin(channel)
    ensures EncodeIrcLine("JOIN #" + channel).Ok? && EncodeIrcLine("NICK " + channel).Ok?
  {
    LoginHasNoBreak(channel);
  }

  lemma PassFits(token: string)
    requires ValidToken(token)
    ensures EncodeIrcLine("PASS " + token).Ok?
  {
    hide IsTokenChar;
    TokenHasNoBreak(token);
  }

  /** Every line that a validated configuration makes the bot send can be encoded. */
  lemma LengthBudget(config: RuntimeConfig, channel: string, text: string)
    requires Validated(config)
    ensures EncodeIrcLine("PASS " + config.oauthToken).Ok?
    ensures EncodeIrcLine("NICK " + config.username).Ok?
    ensures EncodeIrcLine(CAP_REQ).Ok?
    ensures channel in config.channels ==> EncodeIrcLine("JOIN #" + channel).Ok?
    ensures ValidLogin(channel) && ValidMessage(text) ==> MakePrivmsg(channel, text).Ok?
  {
    hide EncodeIrcLine, MakePrivmsg, ValidSettings, ValidToken, ValidLogin, ValidMessage;
    CapReqIsLegal();
    PassFits(config.oauthToken);
    JoinFits(config.username);
    if channel in config.channels {
      JoinFits(channel);
    }
    if ValidLogin(channel) && ValidMessage(text) {
      PrivmsgFits(channel, text);
    }
  }

  /** An automated response to a normalised channel is read back as PRIVMSG with that
      channel and exactly the configured text. */
  lemma ChatReadBack(channel: string, text: string)
    requires ValidLogin(channel) && ValidMessage(text)
    ensures var r := MakePrivmsg(channel, text);
            && r.Ok? && |r.value| >= 2
            && ParseLine(r.value[..|r.value| - 2]) == Some(IrcMessage(map[], "", "PRIVMSG", ["#" + channel, text]))
  {
    hide ParseLine;
    LoginHasNoBreak(channel);
    PrivmsgReadBack(channel, text);
  }
}
