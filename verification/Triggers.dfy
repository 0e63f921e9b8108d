/** Which chat events the bot answers and how, told by the words of the message. */
module Triggers {
  import opened Basics
  import opened IrcText
  import opened IrcMessages
  import opened IrcRoundTrip
  import opened RateLimits
  import opened Configuration
  import opened Spelling
  import opened Automation
  import opened Cooldowns

  // ---------------------------------------------------------------------------
  // Sender and channel
  // ---------------------------------------------------------------------------

  /** The part of the prefix before its first exclamation mark names this login. */
  ghost predicate ComesFrom(prefix: string, name: string) {
    exists nick: string, rest: string :: prefix == nick + "!" + rest && '!' !in nick && Names(nick, name)
  }

  lemma NamesNothing(name: string)
    ensures !Names("", name)
  {
    forall a: string, s: string, b: string | "" == a + s + b && Spells(s, name)
      ensures !IsName(name)
    {
      assert |a + s + b| == |a| + |s| + |b|;
    }
  }

  lemma NickIsUnique(nick: string, rest: string, prefix: string)
    requires prefix == nick + "!" + rest && '!' !in nick
    ensures IndexOf(prefix, '!', 0) == |nick| < |prefix| && prefix[..|nick|] == nick
  {
    assert prefix == nick + ['!'] + rest;
    CutAt(nick, '!', rest);
  }

  lemma SenderExactly(prefix: string, name: string)
    ensures SenderFromPrefix(prefix) == Some(name) <==> ComesFrom(prefix, name)
  {
    hide Names, NormalizeLogin;
    var k := IndexOf(prefix, '!', 0);
    NamesNothing(name);
    if k < |prefix| {
      var nick := prefix[..k];
      LoginExactly(nick, name);
      assert prefix == nick + "!" + prefix[k + 1..];
      assert '!' !in nick by { assert forall i | 0 <= i < k :: nick[i] == prefix[i]; }
    }
    forall nick: string, rest: string | prefix == nick + "!" + rest && '!' !in nick
      ensures k == |nick| && k < |prefix| && prefix[..k] == nick
    {
      NickIsUnique(nick, rest, prefix);
    }
  }

  lemma ChannelOfExactly(m: IrcMessage, name: string)
    ensures ChannelFromMessage(m) == Some(name) <==> m.parameters != [] && NamesChannel(m.parameters[0], name)
  {
    hide NamesChannel, NormalizeChannel;
    if m.parameters != [] {
      ChannelExactly(m.parameters[0], name);
    }
  }

  // ---------------------------------------------------------------------------
  // Message rules
  // ---------------------------------------------------------------------------

  /** A chat message in its parts: who wrote it where, and what. */
  ghost predicate IsChat(m: IrcMessage, nick: string, channel: string, text: string) {
    && m.command == "PRIVMSG" && |m.parameters| >= 2
    && (exists host: string :: m.prefix == nick + "!" + host) && '!' !in nick
    && NamesChannel(m.parameters[0], channel)
    && m.parameters[|m.parameters| - 1] == text
  }

  /** What a rule asks for: it is enabled, the writer is its sender, the channel is its
      channel if it has one, its pattern is a part of the text, and it has cooled down. */
  ghost predicate Asks(rule: MessageRule, last: Option<Time>, nick: string, channel: string, text: string, now: Time) {
    && rule.enabled
    && Names(nick, rule.sender)
    && (rule.channel == None || rule.channel == Some(channel))
    && HasPart(text, rule.contains)
    && (last.Some? ==> last.value + rule.cooldown <= now)
  }

  lemma FiresExactly(settings: BotSettings, e: Engine, r: nat, m: IrcMessage, now: Time,
                     nick: string, channel: string, text: string)
    requires r < |settings.messageRules| == |e.ruleLastSent| && IsChat(m, nick, channel, text)
    ensures Fires(settings, e, r, m, now)
            <==> Asks(settings.messageRules[r], e.ruleLastSent[r], nick, channel, text, now)
    ensures ChannelFromMessage(m) == Some(channel)
  {
    hide Names, NamesChannel, HasPart, Contains, SenderFromPrefix, ChannelFromMessage;
    var rule := settings.messageRules[r];
    ChannelOfExactly(m, channel);
    ContainsIsPart(text, rule.contains);
    SenderExactly(m.prefix, rule.sender);
    FromNick(m.prefix, nick, rule.sender);
  }

  lemma FromNick(prefix: string, nick: string, name: string)
    requires (exists host: string :: prefix == nick + "!" + host) && '!' !in nick
    ensures ComesFrom(prefix, name) <==> Names(nick, name)
  {
    hide Names;
    var host: string :| prefix == nick + "!" + host;
    NickIsUnique(nick, host, prefix);
    forall nick': string, host': string | prefix == nick' + "!" + host' && '!' !in nick'
      ensures nick' == nick
    {
      NickIsUnique(nick', host', prefix);
    }
  }

  /** The responses of the first n rules that ask, in their order. */
  ghost function Answered(settings: BotSettings, lasts: seq<Option<Time>>, n: nat,
                          nick: string, channel: string, text: string, now: Time): seq<Scheduled>
    requires n <= |settings.messageRules| == |lasts|
  {
    if n == 0 then []
    else
      var rule := settings.messageRules[n - 1];
      Answered(settings, lasts, n - 1, nick, channel, text, now)
      + (if Asks(rule, lasts[n - 1], nick, channel, text, now)
         then [Scheduled(channel, rule.response, now + rule.delay)] else [])
  }

  lemma {:induction false} ResponsesExactly(settings: BotSettings, e: Engine, n: nat, m: IrcMessage, now: Time,
                                            nick: string, channel: string, text: string)
    requires n <= |settings.messageRules| == |e.ruleLastSent| && IsChat(m, nick, channel, text)
    ensures Responses(settings, e, n, m, now) == Answered(settings, e.ruleLastSent, n, nick, channel, text, now)
  {
    hide IsChat, Asks, Fires, ChannelFromMessage;
    if n > 0 {
      ResponsesExactly(settings, e, n - 1, m, now, nick, channel, text);
      FiresExactly(settings, e, n - 1, m, now, nick, channel, text);
    }
  }

  /** The bot answers a chat message with the responses of exactly the rules that ask for
      it, and exactly these rules start cooling down. */
  lemma RulesAnswerExactly(settings: BotSettings, e: Engine, m: IrcMessage, now: Time,
                           nick: string, channel: string, text: string, r: nat)
    requires |settings.messageRules| == |e.ruleLastSent| && IsChat(m, nick, channel, text)
    ensures AfterEvent(settings, e, m, now).1
            == Ok(Answered(settings, e.ruleLastSent, |settings.messageRules|, nick, channel, text, now))
    ensures r < |settings.messageRules| ==>
              AfterEvent(settings, e, m, now).0.ruleLastSent[r]
              == if Asks(settings.messageRules[r], e.ruleLastSent[r], nick, channel, text, now) then Some(now)
                 else e.ruleLastSent[r]
  {
    hide Asks, Fires, Responses, Answered;
    ResponsesExactly(settings, e, |settings.messageRules|, m, now, nick, channel, text);
    assert m.command == "PRIVMSG";
    if r < |settings.messageRules| {
      FiresExactly(settings, e, r, m, now, nick, channel, text);
      RuleStep(settings, e, r, m, now);
    }
  }

  /** Any other PRIVMSG is not answered: without a text, from nobody, or to no channel. */
  lemma OtherChatIsIgnored(settings: BotSettings, e: Engine, m: IrcMessage, now: Time)
    requires |settings.messageRules| == |e.ruleLastSent| && m.command == "PRIVMSG"
    requires || |m.parameters| < 2
             || (forall name :: !ComesFrom(m.prefix, name))
             || (forall name :: !NamesChannel(m.parameters[0], name))
    ensures AfterEvent(settings, e, m, now) == (e, Ok([]))
  {
    hide ComesFrom, NamesChannel, SenderFromPrefix, ChannelFromMessage;
    if SenderFromPrefix(m.prefix).Some? {
      SenderExactly(m.prefix, SenderFromPrefix(m.prefix).value);
    }
    if ChannelFromMessage(m).Some? {
      ChannelOfExactly(m, ChannelFromMessage(m).value);
    }
    NothingFires(settings, e, |settings.messageRules|, m, now);
    assert AfterEvent(settings, e, m, now).0.ruleLastSent == e.ruleLastSent;
  }

  /** Nor does a message that is neither PRIVMSG nor USERNOTICE do anything. */
  lemma OtherCommandsAreIgnored(settings: BotSettings, e: Engine, m: IrcMessage, now: Time)
    requires |settings.messageRules| == |e.ruleLastSent|
    requires m.command != "PRIVMSG" && m.command != "USERNOTICE"
    ensures AfterEvent(settings, e, m, now) == (e, Ok([]))
  {
  }

  // ---------------------------------------------------------------------------
  // Hype events
  // ---------------------------------------------------------------------------

  /** A notice in the hype channel with this event identifier. */
  ghost predicate IsNotice(settings: BotSettings, m: IrcMessage, ids: set<string>) {
    && m.command == "USERNOTICE" && settings.hype.enabled
    && m.parameters != [] && NamesChannel(m.parameters[0], settings.hype.channel)
    && "msg-id" in m.tags && m.tags["msg-id"] in ids
  }

  lemma HypeEventExactly(settings: BotSettings, m: IrcMessage)
    ensures HypeEvent(settings, m) == Some(Subscription) <==> IsNotice(settings, m, {"sub", "resub"})
    ensures HypeEvent(settings, m) == Some(Gift) <==> IsNotice(settings, m, {"subgift", "submysterygift"})
  {
    hide NamesChannel, ChannelFromMessage;
    ChannelOfExactly(m, settings.hype.channel);
  }

  /** The bot answers sub and resub notices of the hype channel with the next message of the
      first list, subgift and submysterygift with the next of the second, if the cooldown
      that they share has passed, and no other notice. */
  lemma HypeAnswersExactly(settings: BotSettings, e: Engine, m: IrcMessage, now: Time)
    requires |settings.messageRules| == |e.ruleLastSent| && m.command == "USERNOTICE"
    requires settings.hype.enabled ==>
               e.subscriptionIndex < |settings.hype.subscriptionMessages| && e.giftIndex < |settings.hype.giftMessages|
    ensures var hype := settings.hype;
            var (e', r) := AfterEvent(settings, e, m, now);
            if e.hypeLastSent.Some? && now < e.hypeLastSent.value + hype.cooldown then (e', r) == (e, Ok([]))
            else if IsNotice(settings, m, {"sub", "resub"}) then
              && r == Ok([Scheduled(hype.channel, hype.subscriptionMessages[e.subscriptionIndex], now + hype.delay)])
              && e' == e.(hypeLastSent := Some(now),
                          subscriptionIndex := (e.subscriptionIndex + 1) % |hype.subscriptionMessages|)
            else if IsNotice(settings, m, {"subgift", "submysterygift"}) then
              && r == Ok([Scheduled(hype.channel, hype.giftMessages[e.giftIndex], now + hype.delay)])
              && e' == e.(hypeLastSent := Some(now), giftIndex := (e.giftIndex + 1) % |hype.giftMessages|)
            else (e', r) == (e, Ok([]))
  {
    hide NamesChannel, HypeEvent;
    HypeEventExactly(settings, m);
    HypeNeedsEnabled(settings, m);
  }

  lemma HypeNeedsEnabled(settings: BotSettings, m: IrcMessage)
    ensures HypeEvent(settings, m).Some? ==> settings.hype.enabled
  {
  }

  // ---------------------------------------------------------------------------
  // As lines
  // ---------------------------------------------------------------------------

  lemma SignedChannel(channel: string)
    requires IsName(channel)
    ensures NamesChannel("#" + channel, channel) && Names(channel, channel)
    ensures GoodMiddle("#" + channel)
    ensures forall other :: NamesChannel("#" + channel, other) ==> other == channel
  {
    hide Names, NormalizeLogin, NormalizeChannel, NamesChannel;
    NameIsLogin(channel);
    NormalizedIsStable(channel);
    LoginExactly(channel, channel);
    forall other
      ensures NormalizeChannel("#" + channel) == Ok(other) <==> NamesChannel("#" + channel, other)
    {
      ChannelExactly("#" + channel, other);
    }
    LoginHasNoBreak(channel);
    assert ("#" + channel)[1..] == channel;
  }

  /** A chat line of any nick, host, channel and text is read as that chat message. */
  lemma ChatLineIsChat(tags: seq<Tag>, nick: string, host: string, channel: string, text: string)
    requires forall i | 0 <= i < |tags| :: GoodKey(tags[i].key)
    requires '!' !in nick && ' ' !in nick && ' ' !in host && !HasLineBreak(nick) && !HasLineBreak(host)
    requires IsName(channel) && !HasLineBreak(text)
    requires |Print(Wire(tags, Some(nick + "!" + host), "PRIVMSG", ["#" + channel], Some(text)))| <= 8_192
    ensures var line := Print(Wire(tags, Some(nick + "!" + host), "PRIVMSG", ["#" + channel], Some(text)));
            ParseLine(line).Some? && IsChat(ParseLine(line).value, nick, channel, text)
  {
    hide ParseLine, Print, NamesChannel, HasLineBreak, GoodKey, IsName, GoodMiddle;
    var prefix := nick + "!" + host;
    var w := Wire(tags, Some(prefix), "PRIVMSG", ["#" + channel], Some(text));
    SignedChannel(channel);
    assert !HasLineBreak(prefix) by { PrefixIsClean(nick, host); }
    assert Upper("PRIVMSG") == "PRIVMSG" && AllAlnum("PRIVMSG") && |"PRIVMSG"| > 0;
    ParseInvertsPrint(w);
    var m := Meaning(w);
    assert m.parameters == ["#" + channel, text];
    assert m.prefix == nick + "!" + host;
  }

  lemma PrefixIsClean(nick: string, host: string)
    requires !HasLineBreak(nick) && !HasLineBreak(host)
    ensures !HasLineBreak(nick + "!" + host)
  {
  }

  /** A notice line with one tag is read as that notice. */
  lemma NoticeLineIsNotice(settings: BotSettings, id: string, ids: set<string>)
    requires settings.hype.enabled && IsName(settings.hype.channel) && 0 < |id| <= 100
    requires ids == {"sub", "resub"} || ids == {"subgift", "submysterygift"}
    ensures var line := Print(Wire([Tag("msg-id", Some(id))], Some("tmi.twitch.tv"), "USERNOTICE",
                                   ["#" + settings.hype.channel], None));
            ParseLine(line).Some? && (IsNotice(settings, ParseLine(line).value, ids) <==> id in ids)
  {
    hide ParseLine, Print, NamesChannel, IsName, GoodMiddle, GoodKey, AllAlnum, Upper, HasLineBreak;
    var w := Wire([Tag("msg-id", Some(id))], Some("tmi.twitch.tv"), "USERNOTICE", ["#" + settings.hype.channel], None);
    SignedChannel(settings.hype.channel);
    NoticeWords();
    NoticeIsShort(w, id, settings.hype.channel);
    ParseInvertsPrint(w);
    OneTag("msg-id", id);
  }

  lemma NoticeWords()
    ensures GoodKey("msg-id") && Upper("USERNOTICE") == "USERNOTICE" && AllAlnum("USERNOTICE")
    ensures ' ' !in "tmi.twitch.tv" && !HasLineBreak("tmi.twitch.tv")
  {
  }

  lemma OneTag(key: string, value: string)
    ensures TagMap([Tag(key, Some(value))], map[]) == map[key := value]
  {
    assert |[Tag(key, Some(value))][1..]| == 0;
  }

  lemma {:induction false} EscapeIsShort(value: string)
    ensures |Escape(value)| <= 2 * |value|
  {
    if value != "" {
      EscapeIsShort(value[1..]);
    }
  }

  lemma NoticeIsShort(w: Wire, id: string, channel: string)
    requires w == Wire([Tag("msg-id", Some(id))], Some("tmi.twitch.tv"), "USERNOTICE", ["#" + channel], None)
    requires |id| <= 100 && IsName(channel)
    ensures |Print(w)| <= 8_192
  {
    hide Escape, IsName;
    EscapeIsShort(id);
    assert |channel| <= 25 by { NameIsShort(channel); }
    assert |PrintMiddle(["#" + channel])| <= 30 by { assert PrintMiddle(["#" + channel][1..]) == ""; }
  }

  lemma NameIsShort(name: string)
    requires IsName(name)
    ensures |name| <= 25
  {
  }
}
