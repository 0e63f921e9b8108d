/** Runs of the automation engine: cooldowns are kept, the responses are as many as
    any schedule within the cooldown allows, and the two hype lists rotate. */
module Cooldowns {
  import opened Basics
  import opened IrcMessages
  import opened RateLimits
  import opened Configuration
  import opened Automation

  datatype Event = Event(message: IrcMessage, now: Time)

  /** The engine after the events; a throw leaves it as the failing call left it. */
  function Run(settings: BotSettings, es: seq<Event>): (e: Engine)
    ensures |e.ruleLastSent| == |settings.messageRules|
  {
    if es == [] then NewEngine(settings)
    else
      var last := es[|es| - 1];
      AfterEvent(settings, Run(settings, es[..|es| - 1]), last.message, last.now).0
  }

  ghost predicate Chronological(es: seq<Event>) {
    forall i, j | 0 <= i <= j < |es| :: es[i].now <= es[j].now
  }

  // ---------------------------------------------------------------------------
  // Greedy selection with a cooldown
  // ---------------------------------------------------------------------------

  /** Take every instant that is at least a cooldown after the last one taken. */
  function Greedy(times: seq<Time>, cooldown: Time): seq<Time> {
    if times == [] then []
    else
      var g := Greedy(times[..|times| - 1], cooldown);
      var t := times[|times| - 1];
      if g == [] || t - g[|g| - 1] >= cooldown then g + [t] else g
  }

  ghost predicate Ascending(times: seq<Time>) {
    forall i, j | 0 <= i <= j < |times| :: times[i] <= times[j]
  }

  ghost predicate Apart(times: seq<Time>, cooldown: Time) {
    forall i, j | 0 <= i < j < |times| :: times[j] - times[i] >= cooldown
  }

  /** The instants picked by a mask. */
  function Picked(times: seq<Time>, mask: seq<bool>): seq<Time>
    requires |mask| == |times|
  {
    if times == [] then []
    else
      var n := |times| - 1;
      Picked(times[..n], mask[..n]) + (if mask[n] then [times[n]] else [])
  }

  lemma {:induction false} GreedyAscends(times: seq<Time>, cooldown: Time)
    requires Ascending(times)
    ensures Ascending(Greedy(times, cooldown))
    ensures forall i | 0 <= i < |Greedy(times, cooldown)| :: Greedy(times, cooldown)[i] <= times[|times| - 1]
  {
    if times != [] {
      var n := |times| - 1;
      var g := Greedy(times[..n], cooldown);
      GreedyAscends(times[..n], cooldown);
      assert forall i | 0 <= i < |g| :: g[i] <= times[n];
    }
  }

  lemma {:induction false} GreedyIsApart(times: seq<Time>, cooldown: Time)
    requires Ascending(times) && cooldown >= 0
    ensures Apart(Greedy(times, cooldown), cooldown)
  {
    if times != [] {
      var n := |times| - 1;
      var g := Greedy(times[..n], cooldown);
      GreedyIsApart(times[..n], cooldown);
      GreedyAscends(times[..n], cooldown);
      if g != [] && times[n] - g[|g| - 1] >= cooldown {
        assert forall i | 0 <= i < |g| :: g[i] <= g[|g| - 1];
      }
    }
  }

  /** Greedy stays ahead of every selection with that spacing. */
  lemma {:induction false} GreedyIsMaximum(times: seq<Time>, cooldown: Time, mask: seq<bool>)
    requires Ascending(times) && |mask| == |times| && Apart(Picked(times, mask), cooldown)
    ensures var p, g := Picked(times, mask), Greedy(times, cooldown);
            && |p| <= |g|
            && (p != [] && |p| == |g| ==> g[|g| - 1] <= p[|p| - 1])
  {
    if times != [] {
      var n := |times| - 1;
      var p := Picked(times[..n], mask[..n]);
      assert p <= Picked(times, mask);
      assert Apart(p, cooldown) by { ApartPrefix(p, Picked(times, mask), cooldown); }
      GreedyIsMaximum(times[..n], cooldown, mask[..n]);
      GreedyBounded(times, cooldown);
      if mask[n] && p != [] {
        var q := Picked(times, mask);
        assert q[|p|] - q[|p| - 1] >= cooldown;
      }
    }
  }

  lemma ApartPrefix(p: seq<Time>, q: seq<Time>, cooldown: Time)
    requires p <= q && Apart(q, cooldown)
    ensures Apart(p, cooldown)
  {
    assert forall i | 0 <= i < |p| :: p[i] == q[i];
  }

  lemma GreedyBounded(times: seq<Time>, cooldown: Time)
    requires Ascending(times) && times != []
    ensures var g := Greedy(times, cooldown); g != [] ==> g[|g| - 1] <= times[|times| - 1]
  {
    GreedyAscends(times, cooldown);
  }

  // ---------------------------------------------------------------------------
  // Message rules
  // ---------------------------------------------------------------------------

  /** When rule r responded. */
  function RuleTimes(settings: BotSettings, es: seq<Event>, r: nat): seq<Time>
    requires r < |settings.messageRules|
  {
    if es == [] then []
    else
      var n := |es| - 1;
      RuleTimes(settings, es[..n], r)
      + (if Fires(settings, Run(settings, es[..n]), r, es[n].message, es[n].now) then [es[n].now] else [])
  }

  /** When rule r was asked for, cooldown apart. */
  function MatchTimes(rule: MessageRule, es: seq<Event>): seq<Time> {
    if es == [] then []
    else
      var n := |es| - 1;
      MatchTimes(rule, es[..n]) + (if Matches(rule, es[n].message) then [es[n].now] else [])
  }

  ghost predicate IsLast(last: Option<Time>, times: seq<Time>) {
    if times == [] then last.None? else last == Some(times[|times| - 1])
  }

  lemma {:induction false} RuleIsGreedy(settings: BotSettings, es: seq<Event>, r: nat)
    requires r < |settings.messageRules|
    ensures RuleTimes(settings, es, r)
            == Greedy(MatchTimes(settings.messageRules[r], es), settings.messageRules[r].cooldown)
    ensures IsLast(Run(settings, es).ruleLastSent[r], RuleTimes(settings, es, r))
  {
    hide Matches, AfterEvent, Greedy;
    GreedyOfNone(settings.messageRules[r].cooldown);
    if es != [] {
      var n := |es| - 1;
      var m, now := es[n].message, es[n].now;
      var rule, e := settings.messageRules[r], Run(settings, es[..n]);
      RuleIsGreedy(settings, es[..n], r);
      RuleStep(settings, e, r, m, now);
      assert forall s: seq<Time> :: s + [] == s;
      GreedyAppend(MatchTimes(rule, es[..n]), now, rule.cooldown);
    }
  }

  lemma RuleStep(settings: BotSettings, e: Engine, r: nat, m: IrcMessage, now: Time)
    requires r < |settings.messageRules| == |e.ruleLastSent|
    ensures AfterEvent(settings, e, m, now).0.ruleLastSent[r]
            == if Fires(settings, e, r, m, now) then Some(now) else e.ruleLastSent[r]
  {
    hide Responses, HypeEvent, SenderFromPrefix, ChannelFromMessage, Cooled;
  }

  lemma {:induction false} MatchTimesAscend(rule: MessageRule, es: seq<Event>)
    requires Chronological(es)
    ensures Ascending(MatchTimes(rule, es))
    ensures forall i | 0 <= i < |MatchTimes(rule, es)| :: MatchTimes(rule, es)[i] <= es[|es| - 1].now
  {
    if es != [] {
      MatchTimesAscend(rule, es[..|es| - 1]);
    }
  }

  /** Over any run, two responses of one rule are at least its cooldown apart, and no
      selection of its matching events with that spacing is larger. */
  lemma RuleCooldownSafeAndOptimal(settings: BotSettings, es: seq<Event>, r: nat, mask: seq<bool>)
    requires r < |settings.messageRules| && Chronological(es) && ValidSettings(settings)
    requires |mask| == |MatchTimes(settings.messageRules[r], es)|
    ensures Apart(RuleTimes(settings, es, r), settings.messageRules[r].cooldown)
    ensures Apart(Picked(MatchTimes(settings.messageRules[r], es), mask), settings.messageRules[r].cooldown)
            ==> |Picked(MatchTimes(settings.messageRules[r], es), mask)| <= |RuleTimes(settings, es, r)|
  {
    var rule := settings.messageRules[r];
    var times := MatchTimes(rule, es);
    assert ValidRule(rule);
    RuleIsGreedy(settings, es, r);
    MatchTimesAscend(rule, es);
    GreedyIsApart(times, rule.cooldown);
    if Apart(Picked(times, mask), rule.cooldown) {
      GreedyIsMaximum(times, rule.cooldown, mask);
    }
  }

  /** The output of one chat message: one entry for each rule that fires, in rule order. */
  lemma {:induction false} ResponsesAreFired(settings: BotSettings, e: Engine, n: nat, m: IrcMessage, now: Time, s: Scheduled)
    requires n <= |settings.messageRules| == |e.ruleLastSent|
    ensures s in Responses(settings, e, n, m, now)
            <==> exists r :: 0 <= r < n && Fires(settings, e, r, m, now)
                             && s == Scheduled(ChannelFromMessage(m).value, settings.messageRules[r].response,
                                               now + settings.messageRules[r].delay)
  {
    hide Matches, ChannelFromMessage, Cooled;
    if n > 0 {
      ResponsesAreFired(settings, e, n - 1, m, now, s);
    }
  }

  // ---------------------------------------------------------------------------
  // Hype
  // ---------------------------------------------------------------------------

  /** The hype response to one event: its kind, unless suppressed or unknown. */
  function HypeResponse(settings: BotSettings, e: Engine, ev: Event): Option<HypeKind> {
    if Cooled(e.hypeLastSent, settings.hype.cooldown, ev.now) then HypeEvent(settings, ev.message) else None
  }

  function HypeTimes(settings: BotSettings, es: seq<Event>): seq<Time> {
    if es == [] then []
    else
      var n := |es| - 1;
      HypeTimes(settings, es[..n])
      + (if HypeResponse(settings, Run(settings, es[..n]), es[n]).Some? then [es[n].now] else [])
  }

  /** When a hype response was asked for, cooldown apart. */
  function HypeAsked(settings: BotSettings, es: seq<Event>): seq<Time> {
    if es == [] then []
    else
      var n := |es| - 1;
      HypeAsked(settings, es[..n]) + (if HypeEvent(settings, es[n].message).Some? then [es[n].now] else [])
  }

  /** What one event makes the engine say in answer to hype events of this kind. */
  function HypeText(settings: BotSettings, e: Engine, ev: Event, kind: HypeKind): seq<Scheduled>
    requires |settings.messageRules| == |e.ruleLastSent|
  {
    var r := AfterEvent(settings, e, ev.message, ev.now).1;
    if HypeEvent(settings, ev.message) == Some(kind) && r.Ok? then r.value else []
  }

  /** All responses of one kind, in order. */
  function HypeTexts(settings: BotSettings, es: seq<Event>, kind: HypeKind): seq<Scheduled> {
    if es == [] then []
    else
      var n := |es| - 1;
      HypeTexts(settings, es[..n], kind) + HypeText(settings, Run(settings, es[..n]), es[n], kind)
  }

  function MessagesOf(settings: BotSettings, kind: HypeKind): seq<string> {
    if kind.Gift? then settings.hype.giftMessages else settings.hype.subscriptionMessages
  }

  function IndexFor(e: Engine, kind: HypeKind): nat {
    if kind.Gift? then e.giftIndex else e.subscriptionIndex
  }

  lemma Multiples(d: int, n: int)
    requires n > 0
    ensures d >= 1 ==> d * n >= n
    ensures d <= -1 ==> d * n <= -n
  {
    if d >= 1 {
      assert (d - 1) * n >= 0;
    } else {
      assert -d * n >= 0;
      if d <= -1 {
        assert (-d - 1) * n >= 0;
      }
    }
  }

  lemma ModIs(a: nat, q: nat, r: nat, n: nat)
    requires r < n && a == q * n + r
    ensures a % n == r
  {
    assert a == (a / n) * n + a % n;
    assert (a / n - q) * n == r - a % n;
    Multiples(a / n - q, n);
  }

  lemma NextIndex(k: nat, n: nat)
    requires n > 0
    ensures (k % n + 1) % n == (k + 1) % n
  {
    var q, i := k / n, k % n;
    assert k == q * n + i;
    if i + 1 == n {
      assert k + 1 == (q + 1) * n + 0;
      ModIs(k + 1, q + 1, 0, n);
      ModIs(i + 1, 1, 0, n);
    } else {
      ModIs(k + 1, q, i + 1, n);
      ModIs(i + 1, 0, i + 1, n);
    }
  }

  /** What one event does to the two rotations. */
  lemma HypeStep(settings: BotSettings, e: Engine, ev: Event, kind: HypeKind)
    requires |settings.messageRules| == |e.ruleLastSent| && ValidHype(settings.hype)
    requires settings.hype.enabled ==> forall k :: IndexFor(e, k) < |MessagesOf(settings, k)|
    ensures var e' := AfterEvent(settings, e, ev.message, ev.now).0;
            var answered := HypeResponse(settings, e, ev) == Some(kind);
            && IndexFor(e', kind)
               == (if answered then (IndexFor(e, kind) + 1) % |MessagesOf(settings, kind)| else IndexFor(e, kind))
            && HypeText(settings, e, ev, kind)
               == (if answered then [Scheduled(settings.hype.channel, MessagesOf(settings, kind)[IndexFor(e, kind)],
                                               ev.now + settings.hype.delay)] else [])
    ensures var e' := AfterEvent(settings, e, ev.message, ev.now).0;
            && AfterEvent(settings, e, ev.message, ev.now).1.Ok?
            && e'.hypeLastSent == (if HypeResponse(settings, e, ev).Some? then Some(ev.now) else e.hypeLastSent)
            && (settings.hype.enabled ==> forall k :: IndexFor(e', k) < |MessagesOf(settings, k)|)
  {
    hide Responses, Fires, Matches, HypeKindOf, ChannelFromMessage;
    assert IndexFor(e, Gift) == e.giftIndex && IndexFor(e, Subscription) == e.subscriptionIndex;
  }

  lemma {:induction false} HypeRuns(settings: BotSettings, es: seq<Event>)
    requires ValidHype(settings.hype)
    ensures var e := Run(settings, es);
            && (settings.hype.enabled ==> forall k :: IndexFor(e, k) < |MessagesOf(settings, k)|)
            && IsLast(e.hypeLastSent, HypeTimes(settings, es))
            && HypeTimes(settings, es) == Greedy(HypeAsked(settings, es), settings.hype.cooldown)
  {
    hide AfterEvent, HypeEvent, Cooled, ValidHype, Greedy, HypeAsked;
    EnabledHasMessages(settings);
    if es == [] {
      GreedyOfNone(settings.hype.cooldown);
      assert HypeAsked(settings, es) == [] by { NothingAsked(settings); }
    } else {
      var n := |es| - 1;
      HypeRuns(settings, es[..n]);
      HypeStep(settings, Run(settings, es[..n]), es[n], Gift);
      HypeTimesStep(settings, es);
    }
  }

  lemma NothingAsked(settings: BotSettings)
    ensures HypeAsked(settings, []) == []
  {
  }

  /** The texts are the messages in rotation, and index is the next position. */
  ghost predicate Rotates(texts: seq<Scheduled>, messages: seq<string>, channel: string, index: nat) {
    && (messages == [] ==> texts == [])
    && (messages != [] ==> index == |texts| % |messages|)
    && forall k | 0 <= k < |texts| :: texts[k].channel == channel && texts[k].text == messages[k % |messages|]
  }

  lemma RotatesOn(texts: seq<Scheduled>, messages: seq<string>, channel: string, index: nat, s: Scheduled)
    requires Rotates(texts, messages, channel, index) && index < |messages|
    requires s.channel == channel && s.text == messages[index]
    ensures Rotates(texts + [s], messages, channel, (index + 1) % |messages|)
  {
    NextIndex(|texts|, |messages|);
  }

  lemma {:induction false} HypeRotates(settings: BotSettings, es: seq<Event>, kind: HypeKind)
    requires ValidHype(settings.hype)
    ensures Rotates(HypeTexts(settings, es, kind), MessagesOf(settings, kind), settings.hype.channel,
                    IndexFor(Run(settings, es), kind))
  {
    hide AfterEvent, HypeEvent, HypeText, Cooled, ValidHype, HypeTimes, HypeAsked, Greedy, MessagesOf;
    if es != [] {
      hide Rotates;
      var n := |es| - 1;
      var e := Run(settings, es[..n]);
      var texts := HypeTexts(settings, es[..n], kind);
      HypeRotates(settings, es[..n], kind);
      HypeRuns(settings, es[..n]);
      HypeStep(settings, e, es[n], kind);
      assert texts + [] == texts;
      if HypeResponse(settings, e, es[n]) == Some(kind) {
        HypeMeansEnabled(settings, es[n].message, kind);
        RotatesOn(texts, MessagesOf(settings, kind), settings.hype.channel, IndexFor(e, kind),
                  HypeText(settings, e, es[n], kind)[0]);
      }
    }
  }

  lemma EnabledHasMessages(settings: BotSettings)
    requires ValidHype(settings.hype)
    ensures settings.hype.enabled ==> forall k :: |MessagesOf(settings, k)| > 0
  {
  }

  lemma HypeMeansEnabled(settings: BotSettings, m: IrcMessage, kind: HypeKind)
    requires HypeEvent(settings, m).Some? && ValidHype(settings.hype)
    ensures settings.hype.enabled && |MessagesOf(settings, kind)| > 0
  {
  }

  lemma HypeTimesStep(settings: BotSettings, es: seq<Event>)
    requires es != [] && IsLast(Run(settings, es[..|es| - 1]).hypeLastSent, HypeTimes(settings, es[..|es| - 1]))
    requires HypeTimes(settings, es[..|es| - 1])
             == Greedy(HypeAsked(settings, es[..|es| - 1]), settings.hype.cooldown)
    ensures HypeTimes(settings, es) == Greedy(HypeAsked(settings, es), settings.hype.cooldown)
  {
    hide Run, Greedy, HypeTimes, HypeAsked, HypeEvent;
    HypeSnoc(settings, es);
    assert forall s: seq<Time> :: s + [] == s;
    GreedyAppend(HypeAsked(settings, es[..|es| - 1]), es[|es| - 1].now, settings.hype.cooldown);
  }

  lemma HypeSnoc(settings: BotSettings, es: seq<Event>)
    requires es != []
    ensures var n := |es| - 1;
            && HypeTimes(settings, es)
               == HypeTimes(settings, es[..n])
                  + (if HypeResponse(settings, Run(settings, es[..n]), es[n]).Some? then [es[n].now] else [])
            && HypeAsked(settings, es)
               == HypeAsked(settings, es[..n]) + (if HypeEvent(settings, es[n].message).Some? then [es[n].now] else [])
  {
    hide Run, HypeEvent, HypeResponse;
  }

  lemma GreedyOfNone(cooldown: Time)
    ensures Greedy([], cooldown) == []
  {
  }

  lemma GreedyAppend(times: seq<Time>, t: Time, cooldown: Time)
    ensures var g := Greedy(times, cooldown);
            Greedy(times + [t], cooldown) == if g == [] || t - g[|g| - 1] >= cooldown then g + [t] else g
  {
    assert (times + [t])[..|times|] == times;
  }

  lemma {:induction false} HypeAskedAscends(settings: BotSettings, es: seq<Event>)
    requires Chronological(es)
    ensures Ascending(HypeAsked(settings, es))
    ensures forall i | 0 <= i < |HypeAsked(settings, es)| :: HypeAsked(settings, es)[i] <= es[|es| - 1].now
  {
    hide HypeEvent;
    if es != [] {
      HypeAskedAscends(settings, es[..|es| - 1]);
    }
  }

  /** Whatever the interleaving: the k-th response of a kind is the k-th of its list in
      rotation, and any two hype responses are at least one cooldown apart. */
  lemma RoundRobin(settings: BotSettings, es: seq<Event>, kind: HypeKind, k: nat)
    requires ValidSettings(settings) && Chronological(es)
    ensures k < |HypeTexts(settings, es, kind)| ==>
              var messages := MessagesOf(settings, kind);
              messages != [] && HypeTexts(settings, es, kind)[k].text == messages[k % |messages|]
    ensures Apart(HypeTimes(settings, es), settings.hype.cooldown)
    ensures settings.hype.enabled ==> IndexFor(Run(settings, es), kind) < |MessagesOf(settings, kind)|
  {
    hide Run, HypeTexts, HypeTimes, HypeAsked;
    HypeRuns(settings, es);
    HypeRotates(settings, es, kind);
    HypeAskedAscends(settings, es);
    GreedyIsApart(HypeAsked(settings, es), settings.hype.cooldown);
  }

  /** No selection of the hype events with that spacing is larger than what is answered. */
  lemma HypeOptimal(settings: BotSettings, es: seq<Event>, mask: seq<bool>)
    requires ValidSettings(settings) && Chronological(es) && |mask| == |HypeAsked(settings, es)|
    requires Apart(Picked(HypeAsked(settings, es), mask), settings.hype.cooldown)
    ensures |Picked(HypeAsked(settings, es), mask)| <= |HypeTimes(settings, es)|
  {
    hide Run, HypeTimes, HypeAsked, Greedy, Picked;
    HypeRuns(settings, es);
    HypeAskedAscends(settings, es);
    GreedyIsMaximum(HypeAsked(settings, es), settings.hype.cooldown, mask);
  }

  /** With validated settings no event makes the engine throw. */
  lemma NeverThrows(settings: BotSettings, es: seq<Event>, ev: Event)
    requires ValidSettings(settings)
    ensures AfterEvent(settings, Run(settings, es), ev.message, ev.now).1.Ok?
  {
    hide Run, HypeTexts, HypeTimes, HypeAsked, AfterEvent;
    HypeRuns(settings, es);
    HypeStep(settings, Run(settings, es), ev, Gift);
  }
}
