/** Rule and hype responses to chat events, limited by cooldowns. */
module Automation {
  import opened Basics
  import opened IrcText
  import opened IrcMessages
  import opened RateLimits
  import opened Configuration

  datatype Scheduled = Scheduled(channel: string, text: string, due: Time)

  datatype Engine = Engine(
    ruleLastSent: seq<Option<Time>>,
    hypeLastSent: Option<Time>,
    subscriptionIndex: nat,
    giftIndex: nat)

  function NewEngine(settings: BotSettings): Engine {
    Engine(seq(|settings.messageRules|, _ => None), None, 0, 0)
  }

  function SenderFromPrefix(prefix: string): Option<string> {
    var delimiter := IndexOf(prefix, '!', 0);
    if delimiter == |prefix| || delimiter == 0 then None
    else
      match NormalizeLogin(prefix[..delimiter])
      case Ok(sender) => Some(sender)
      case Thrown => None
  }

  function ChannelFromMessage(m: IrcMessage): Option<string> {
    if m.parameters == [] then None
    else
      match NormalizeChannel(m.parameters[0])
      case Ok(channel) => Some(channel)
      case Thrown => None
  }

  // ---------------------------------------------------------------------------
  // Message rules
  // ---------------------------------------------------------------------------

  /** The conditions on the message, cooldown apart. */
  predicate Matches(rule: MessageRule, m: IrcMessage) {
    && m.command == "PRIVMSG" && |m.parameters| >= 2
    && SenderFromPrefix(m.prefix).Some? && ChannelFromMessage(m).Some?
    && rule.enabled
    && rule.sender == SenderFromPrefix(m.prefix).value
    && (rule.channel.Some? ==> rule.channel.value == ChannelFromMessage(m).value)
    && Contains(m.parameters[|m.parameters| - 1], rule.contains)
  }

  predicate Cooled(last: Option<Time>, cooldown: Time, now: Time) {
    last.Some? ==> now - last.value >= cooldown
  }

  predicate Fires(settings: BotSettings, e: Engine, r: nat, m: IrcMessage, now: Time)
    requires r < |settings.messageRules| == |e.ruleLastSent|
  {
    Matches(settings.messageRules[r], m) && Cooled(e.ruleLastSent[r], settings.messageRules[r].cooldown, now)
  }

  /** The responses of the first n rules, in rule order. */
  function Responses(settings: BotSettings, e: Engine, n: nat, m: IrcMessage, now: Time): seq<Scheduled>
    requires n <= |settings.messageRules| == |e.ruleLastSent|
  {
    if n == 0 then []
    else
      Responses(settings, e, n - 1, m, now)
      + (if Fires(settings, e, n - 1, m, now) then
           var rule := settings.messageRules[n - 1];
           [Scheduled(ChannelFromMessage(m).value, rule.response, now + rule.delay)]
         else [])
  }

  function AfterPrivmsg(settings: BotSettings, e: Engine, m: IrcMessage, now: Time): (Engine, seq<Scheduled>)
    requires |settings.messageRules| == |e.ruleLastSent|
  {
    var n := |settings.messageRules|;
    (e.(ruleLastSent := seq(n, r requires 0 <= r < n =>
          if Fires(settings, e, r, m, now) then Some(now) else e.ruleLastSent[r])),
     Responses(settings, e, n, m, now))
  }

  // ---------------------------------------------------------------------------
  // Hype messages
  // ---------------------------------------------------------------------------

  datatype HypeKind = Subscription | Gift

  function HypeKindOf(msgId: string): Option<HypeKind> {
    if msgId == "sub" || msgId == "resub" then Some(Subscription)
    else if msgId == "subgift" || msgId == "submysterygift" then Some(Gift)
    else None
  }

  /** The kind of response the event asks for, cooldown apart. */
  function HypeEvent(settings: BotSettings, m: IrcMessage): Option<HypeKind> {
    if m.command == "USERNOTICE" && settings.hype.enabled
       && ChannelFromMessage(m) == Some(settings.hype.channel) && "msg-id" in m.tags
    then HypeKindOf(m.tags["msg-id"])
    else None
  }

  function AfterUsernotice(settings: BotSettings, e: Engine, m: IrcMessage, now: Time)
    : (Engine, Result<seq<Scheduled>>)
  {
    var hype := settings.hype;
    if HypeEvent(settings, m).None? || !Cooled(e.hypeLastSent, hype.cooldown, now) then (e, Ok([]))
    else
      match HypeEvent(settings, m).value
      case Subscription =>
        if e.subscriptionIndex >= |hype.subscriptionMessages| then (e, Thrown)
        else
          (e.(subscriptionIndex := (e.subscriptionIndex + 1) % |hype.subscriptionMessages|, hypeLastSent := Some(now)),
           Ok([Scheduled(hype.channel, hype.subscriptionMessages[e.subscriptionIndex], now + hype.delay)]))
      case Gift =>
        if e.giftIndex >= |hype.giftMessages| then (e, Thrown)
        else
          (e.(giftIndex := (e.giftIndex + 1) % |hype.giftMessages|, hypeLastSent := Some(now)),
           Ok([Scheduled(hype.channel, hype.giftMessages[e.giftIndex], now + hype.delay)]))
  }

  function AfterEvent(settings: BotSettings, e: Engine, m: IrcMessage, now: Time): (Engine, Result<seq<Scheduled>>)
    requires |settings.messageRules| == |e.ruleLastSent|
  {
    if m.command == "PRIVMSG" then
      var (e', out) := AfterPrivmsg(settings, e, m, now);
      (e', Ok(out))
    else if m.command == "USERNOTICE" then AfterUsernotice(settings, e, m, now)
    else (e, Ok([]))
  }

  class AutomationEngine {
    const settings: BotSettings
    var ruleLastSent: seq<Option<Time>>
    var hypeLastSent: Option<Time>
    var subscriptionIndex: nat
    var giftIndex: nat

    ghost predicate Valid()
      reads this
    {
      |ruleLastSent| == |settings.messageRules|
    }

    ghost function View(): Engine
      reads this
    {
      Engine(ruleLastSent, hypeLastSent, subscriptionIndex, giftIndex)
    }

    constructor (settings: BotSettings)
      ensures Valid() && this.settings == settings && View() == NewEngine(settings)
    {
      this.settings := settings;
      ruleLastSent := seq(|settings.messageRules|, _ => None);
      hypeLastSent, subscriptionIndex, giftIndex := None, 0, 0;
    }

    method Handle(message: IrcMessage, now: Time) returns (r: Result<seq<Scheduled>>)
      requires Valid()
      modifies this
      ensures Valid()
      ensures (View(), r) == AfterEvent(settings, old(View()), message, now)
    {
      if message.command == "PRIVMSG" {
        var out := HandlePrivmsg(message, now);
        return Ok(out);
      }
      if message.command == "USERNOTICE" {
        r := HandleUsernotice(message, now);
        return;
      }
      return Ok([]);
    }

    method HandlePrivmsg(message: IrcMessage, now: Time) returns (output: seq<Scheduled>)
      requires Valid() && message.command == "PRIVMSG"
      modifies this
      ensures Valid()
      ensures (View(), output) == AfterPrivmsg(settings, old(View()), message, now)
    {
      hide Contains, SenderFromPrefix, ChannelFromMessage;
      output := [];
      ghost var before := View();
      if |message.parameters| < 2 || SenderFromPrefix(message.prefix).None? || ChannelFromMessage(message).None? {
        NothingFires(settings, before, |settings.messageRules|, message, now);
        assert AfterPrivmsg(settings, before, message, now).0.ruleLastSent == ruleLastSent;
        return;
      }
      var sender := SenderFromPrefix(message.prefix).value;
      var channel := ChannelFromMessage(message).value;
      var text := message.parameters[|message.parameters| - 1];
      for index := 0 to |settings.messageRules|
        invariant Valid() && View() == before.(ruleLastSent := ruleLastSent)
        invariant forall r | 0 <= r < |ruleLastSent| ::
                    ruleLastSent[r] == if r < index && Fires(settings, before, r, message, now) then Some(now)
                                       else before.ruleLastSent[r]
        invariant output == Responses(settings, before, index, message, now)
      {
        var rule := settings.messageRules[index];
        if !rule.enabled || rule.sender != sender || (rule.channel.Some? && rule.channel.value != channel)
           || !Contains(text, rule.contains) {
          continue;
        }
        var lastSent := ruleLastSent[index];
        if lastSent.Some? && now - lastSent.value < rule.cooldown {
          continue;
        }
        ruleLastSent := ruleLastSent[index := Some(now)];
        output := output + [Scheduled(channel, rule.response, now + rule.delay)];
      }
      assert AfterPrivmsg(settings, before, message, now).0.ruleLastSent == ruleLastSent;
    }

    method HandleUsernotice(message: IrcMessage, now: Time) returns (r: Result<seq<Scheduled>>)
      requires Valid() && message.command == "USERNOTICE"
      modifies this
      ensures Valid()
      ensures (View(), r) == AfterUsernotice(settings, old(View()), message, now)
    {
      var hype := settings.hype;
      if !hype.enabled || message.parameters == [] {
        return Ok([]);
      }
      var channel := ChannelFromMessage(message);
      if channel.None? || channel.value != hype.channel {
        return Ok([]);
      }
      if "msg-id" !in message.tags {
        return Ok([]);
      }
      var event := message.tags["msg-id"];
      if hypeLastSent.Some? && now - hypeLastSent.value < hype.cooldown {
        return Ok([]);
      }
      var response: string;
      if event == "sub" || event == "resub" {
        if subscriptionIndex >= |hype.subscriptionMessages| {
          return Thrown;
        }
        response := hype.subscriptionMessages[subscriptionIndex];
        subscriptionIndex := (subscriptionIndex + 1) % |hype.subscriptionMessages|;
      } else if event == "subgift" || event == "submysterygift" {
        if giftIndex >= |hype.giftMessages| {
          return Thrown;
        }
        response := hype.giftMessages[giftIndex];
        giftIndex := (giftIndex + 1) % |hype.giftMessages|;
      } else {
        return Ok([]);
      }
      hypeLastSent := Some(now);
      return Ok([Scheduled(channel.value, response, now + hype.delay)]);
    }
  }

  lemma {:induction false} NothingFires(settings: BotSettings, e: Engine, n: nat, m: IrcMessage, now: Time)
    requires n <= |settings.messageRules| == |e.ruleLastSent|
    requires |m.parameters| < 2 || SenderFromPrefix(m.prefix).None? || ChannelFromMessage(m).None?
    ensures Responses(settings, e, n, m, now) == []
  {
    if n > 0 {
      NothingFires(settings, e, n - 1, m, now);
    }
  }
}
