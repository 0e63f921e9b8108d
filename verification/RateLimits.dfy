/** The sliding-window rate limiter: its state, what one call does to it, and
    the send history that the program forgets but that gives the state meaning. */
module RateLimits {
  import opened Basics

  /** Instants and durations are ticks (nanoseconds) of one steady clock. */
  type Time = int

  const SECOND: Time := 1_000_000_000
  const CHAT_WINDOW: Time := 30 * SECOND
  const JOIN_WINDOW: Time := 10 * SECOND
  const CHANNEL_GAP: Time := SECOND
  const BURST: nat := 20

  datatype Kind = System | Join | Chat

  /** One completed write: permission was asked at `start`, completion recorded at `at`. */
  datatype Sent = Sent(kind: Kind, channel: string, start: Time, at: Time)

  /** The limiter's two deques and its map, and the full history of recorded writes. */
  datatype Limits = Limits(
    globalChat: seq<Time>,
    joins: seq<Time>,
    channelChat: map<string, Time>,
    history: seq<Sent>)

  const FRESH_LIMITS := Limits([], [], map[], [])

  function Pruned(entries: seq<Time>, cutoff: Time): seq<Time> {
    if entries != [] && entries[0] <= cutoff then Pruned(entries[1..], cutoff) else entries
  }

  /** The limiter after it was asked about a message of this kind. */
  function AfterAsk(l: Limits, kind: Kind, now: Time): Limits {
    match kind
    case System => l
    case Join => l.(joins := Pruned(l.joins, now - JOIN_WINDOW))
    case Chat => l.(globalChat := Pruned(l.globalChat, now - CHAT_WINDOW))
  }

  function BucketFree(entries: seq<Time>, window: Time, now: Time): Time {
    if |entries| < BURST then now else entries[0] + window
  }

  /** The instant the limiter answers with. */
  function Allowed(l: Limits, kind: Kind, channel: string, now: Time): Time {
    match kind
    case System => now
    case Join => BucketFree(Pruned(l.joins, now - JOIN_WINDOW), JOIN_WINDOW, now)
    case Chat =>
      var bucket := BucketFree(Pruned(l.globalChat, now - CHAT_WINDOW), CHAT_WINDOW, now);
      if channel in l.channelChat then Max(bucket, l.channelChat[channel] + CHANNEL_GAP) else bucket
  }

  function AfterRecord(l: Limits, kind: Kind, channel: string, start: Time, at: Time): Limits {
    var l := l.(history := l.history + [Sent(kind, channel, start, at)]);
    match kind
    case System => l
    case Join => l.(joins := l.joins + [at])
    case Chat => l.(globalChat := l.globalChat + [at], channelChat := l.channelChat[channel := at])
  }

  class RateLimiter {
    var globalChat: seq<Time>
    var joins: seq<Time>
    var channelChat: map<string, Time>
    /** Every recorded write, with the instant it was started; never pruned. */
    ghost var history: seq<Sent>

    ghost function View(): Limits
      reads this
    {
      Limits(globalChat, joins, channelChat, history)
    }

    constructor ()
      ensures View() == FRESH_LIMITS
    {
      globalChat, joins, channelChat, history := [], [], map[], [];
    }

    static method Prune(entries: seq<Time>, cutoff: Time) returns (kept: seq<Time>)
      ensures kept == Pruned(entries, cutoff)
    {
      kept := entries;
      while kept != [] && kept[0] <= cutoff
        invariant Pruned(kept, cutoff) == Pruned(entries, cutoff)
        decreases |kept|
      {
        kept := kept[1..];
      }
    }

    method NextAllowed(kind: Kind, channel: string, now: Time) returns (allowed: Time)
      modifies this
      ensures View() == AfterAsk(old(View()), kind, now)
      ensures allowed == Allowed(old(View()), kind, channel, now)
    {
      if kind.System? {
        return now;
      }
      if kind.Join? {
        joins := Prune(joins, now - JOIN_WINDOW);
        return if |joins| < BURST then now else joins[0] + JOIN_WINDOW;
      }
      globalChat := Prune(globalChat, now - CHAT_WINDOW);
      allowed := if |globalChat| < BURST then now else globalChat[0] + CHAT_WINDOW;
      if channel in channelChat {
        allowed := Max(allowed, channelChat[channel] + CHANNEL_GAP);
      }
    }

    method Record(kind: Kind, channel: string, sentAt: Time, ghost start: Time)
      modifies this
      ensures View() == AfterRecord(old(View()), kind, channel, start, sentAt)
    {
      if kind.Join? {
        joins := joins + [sentAt];
      } else if kind.Chat? {
        globalChat := globalChat + [sentAt];
        channelChat := channelChat[channel := sentAt];
      }
      history := history + [Sent(kind, channel, start, sentAt)];
    }
  }

  // ---------------------------------------------------------------------------
  // What the full history permits
  // ---------------------------------------------------------------------------

  function Of(h: seq<Sent>, kind: Kind): (s: seq<Sent>) {
    if h == [] then []
    else
      var last := h[|h| - 1];
      Of(h[..|h| - 1], kind) + (if last.kind == kind then [last] else [])
  }

  /** The chat writes to one channel. */
  function On(h: seq<Sent>, channel: string): (s: seq<Sent>) {
    if h == [] then []
    else
      var last := h[|h| - 1];
      On(h[..|h| - 1], channel) + (if last.kind.Chat? && last.channel == channel then [last] else [])
  }

  function CountAfter(s: seq<Sent>, cutoff: Time): (n: nat) {
    if s == [] then 0
    else CountAfter(s[..|s| - 1], cutoff) + (if s[|s| - 1].at > cutoff then 1 else 0)
  }

  /** Does the complete history allow one more write of this kind and channel at t? */
  predicate Permits(h: seq<Sent>, kind: Kind, channel: string, t: Time) {
    match kind
    case System => true
    case Join => CountAfter(Of(h, Join), t - JOIN_WINDOW) < BURST
    case Chat =>
      && CountAfter(Of(h, Chat), t - CHAT_WINDOW) < BURST
      && CountAfter(On(h, channel), t - CHANNEL_GAP) == 0
  }

  // ---------------------------------------------------------------------------
  // The invariant that ties the pruned state to the history
  // ---------------------------------------------------------------------------

  /** Writes happen one after another and none is recorded in the future. */
  ghost predicate Ordered(h: seq<Sent>, now: Time) {
    && (forall i | 0 <= i < |h| :: h[i].start <= h[i].at <= now)
    && (forall i, j | 0 <= i < j < |h| :: h[i].at <= h[j].start)
  }

  /** `entries` is the end of s; what it lacks has left the window. */
  ghost predicate Suffix(entries: seq<Time>, s: seq<Sent>, cutoff: Time) {
    && |entries| <= BURST
    && |entries| <= |s|
    && (forall i | 0 <= i < |entries| :: entries[i] == s[|s| - |entries| + i].at)
    && (forall i | 0 <= i < |s| - |entries| :: s[i].at <= cutoff)
  }

  ghost predicate LastPerChannel(m: map<string, Time>, h: seq<Sent>) {
    forall c :: if On(h, c) == [] then c !in m else c in m && m[c] == On(h, c)[|On(h, c)| - 1].at
  }

  ghost predicate Faithful(l: Limits, now: Time) {
    && Ordered(l.history, now)
    && Suffix(l.joins, Of(l.history, Join), now - JOIN_WINDOW)
    && Suffix(l.globalChat, Of(l.history, Chat), now - CHAT_WINDOW)
    && LastPerChannel(l.channelChat, l.history)
  }

  lemma {:induction false} OfOrdered(h: seq<Sent>, kind: Kind, now: Time)
    requires Ordered(h, now)
    ensures Ordered(Of(h, kind), now)
  {
    if h != [] {
      var last := h[|h| - 1];
      OfOrdered(h[..|h| - 1], kind, last.start);
    }
  }

  lemma {:induction false} OnOrdered(h: seq<Sent>, channel: string, now: Time)
    requires Ordered(h, now)
    ensures Ordered(On(h, channel), now)
  {
    if h != [] {
      var last := h[|h| - 1];
      OnOrdered(h[..|h| - 1], channel, last.start);
    }
  }

  lemma OfAppend(h: seq<Sent>, x: Sent, kind: Kind)
    ensures Of(h + [x], kind) == Of(h, kind) + (if x.kind == kind then [x] else [])
  {
    assert (h + [x])[..|h|] == h;
  }

  lemma OnAppend(h: seq<Sent>, x: Sent, channel: string)
    ensures On(h + [x], channel) == On(h, channel) + (if x.kind.Chat? && x.channel == channel then [x] else [])
  {
    assert (h + [x])[..|h|] == h;
  }

  /** In an ordered log, fewer than n entries lie after the cutoff exactly when
      the n-th entry from the end does not. */
  lemma {:induction false} CountBelow(s: seq<Sent>, cutoff: Time, n: nat, now: Time)
    requires Ordered(s, now) && n > 0
    ensures CountAfter(s, cutoff) < n <==> |s| < n || s[|s| - n].at <= cutoff
  {
    if s != [] {
      var front := s[..|s| - 1];
      var last := s[|s| - 1];
      if last.at <= cutoff {
        CountBelow(front, cutoff, 1, now);
      } else if n > 1 {
        CountBelow(front, cutoff, n - 1, now);
      }
    }
  }

  lemma {:induction false} PruneKeepsSuffix(entries: seq<Time>, s: seq<Sent>, cutoff: Time)
    requires Suffix(entries, s, cutoff)
    ensures Suffix(Pruned(entries, cutoff), s, cutoff)
    ensures Pruned(entries, cutoff) == [] || Pruned(entries, cutoff)[0] > cutoff
    decreases |entries|
  {
    if entries != [] && entries[0] <= cutoff {
      var rest := entries[1..];
      assert s[|s| - |entries|].at <= cutoff;
      PruneKeepsSuffix(rest, s, cutoff);
    }
  }

  lemma FaithfulLater(l: Limits, now: Time, later: Time)
    requires Faithful(l, now) && now <= later
    ensures Faithful(l, later)
  {
  }

  lemma {:induction false} PrunedTwice(entries: seq<Time>, cutoff: Time)
    ensures Pruned(Pruned(entries, cutoff), cutoff) == Pruned(entries, cutoff)
    decreases |entries|
  {
    if entries != [] && entries[0] <= cutoff {
      PrunedTwice(entries[1..], cutoff);
    }
  }

  /** Asking at one instant does not change any answer given at that instant. */
  lemma AskKeepsAnswers(l: Limits, asked: Kind, kind: Kind, channel: string, now: Time)
    ensures Allowed(AfterAsk(l, asked, now), kind, channel, now) == Allowed(l, kind, channel, now)
  {
    PrunedTwice(l.joins, now - JOIN_WINDOW);
    PrunedTwice(l.globalChat, now - CHAT_WINDOW);
  }

  lemma AskKeepsFaithful(l: Limits, kind: Kind, now: Time)
    requires Faithful(l, now)
    ensures Faithful(AfterAsk(l, kind, now), now)
  {
    PruneKeepsSuffix(l.joins, Of(l.history, Join), now - JOIN_WINDOW);
    PruneKeepsSuffix(l.globalChat, Of(l.history, Chat), now - CHAT_WINDOW);
  }

  lemma BucketExact(entries: seq<Time>, s: seq<Sent>, window: Time, now: Time, t: Time)
    requires Ordered(s, now) && Suffix(entries, s, now - window) && now <= t
    ensures now <= BucketFree(Pruned(entries, now - window), window, now)
    ensures CountAfter(s, t - window) < BURST <==>
            BucketFree(Pruned(entries, now - window), window, now) <= t
  {
    PruneKeepsSuffix(entries, s, now - window);
    var kept := Pruned(entries, now - window);
    CountBelow(s, t - window, BURST, now);
    if |kept| < BURST && |s| >= BURST {
      assert s[|s| - BURST].at <= now - window;
    }
  }

  lemma ChannelExact(l: Limits, channel: string, now: Time, t: Time)
    requires Faithful(l, now)
    ensures CountAfter(On(l.history, channel), t - CHANNEL_GAP) == 0 <==>
            (channel in l.channelChat ==> l.channelChat[channel] + CHANNEL_GAP <= t)
  {
    var s := On(l.history, channel);
    OnOrdered(l.history, channel, now);
    CountBelow(s, t - CHANNEL_GAP, 1, now);
  }

  /** Exactness: the pruned state answers with the least instant, not before now,
      at which the complete history permits the write; from then on it stays permitted. */
  lemma AllowedIsLeast(l: Limits, kind: Kind, channel: string, now: Time, t: Time)
    requires Faithful(l, now) && now <= t
    ensures now <= Allowed(l, kind, channel, now)
    ensures Permits(l.history, kind, channel, t) <==> Allowed(l, kind, channel, now) <= t
  {
    hide Of, On, CountAfter, BucketFree, Pruned, LastPerChannel, Suffix, Ordered;
    match kind {
      case System =>
      case Join =>
        OfOrdered(l.history, Join, now);
        BucketExact(l.joins, Of(l.history, Join), JOIN_WINDOW, now, t);
      case Chat =>
        OfOrdered(l.history, Chat, now);
        BucketExact(l.globalChat, Of(l.history, Chat), CHAT_WINDOW, now, t);
        ChannelExact(l, channel, now, t);
    }
  }

  /** The wait for a slot is never longer than the longest window. */
  lemma AllowedSoon(l: Limits, kind: Kind, channel: string, now: Time)
    requires Faithful(l, now)
    ensures Allowed(l, kind, channel, now) <= now + CHAT_WINDOW
    ensures kind.Join? ==> Allowed(l, kind, channel, now) <= now + JOIN_WINDOW
  {
    hide LastPerChannel;
    PruneKeepsSuffix(l.joins, Of(l.history, Join), now - JOIN_WINDOW);
    PruneKeepsSuffix(l.globalChat, Of(l.history, Chat), now - CHAT_WINDOW);
    SuffixInPast(Pruned(l.joins, now - JOIN_WINDOW), l.history, Join, now);
    SuffixInPast(Pruned(l.globalChat, now - CHAT_WINDOW), l.history, Chat, now);
    LastInPast(l, channel, now);
  }

  lemma SuffixInPast(entries: seq<Time>, h: seq<Sent>, kind: Kind, now: Time)
    requires Ordered(h, now) && |entries| <= |Of(h, kind)|
    requires forall i | 0 <= i < |entries| :: entries[i] == Of(h, kind)[|Of(h, kind)| - |entries| + i].at
    ensures entries != [] ==> entries[0] <= now
  {
    OfOrdered(h, kind, now);
  }

  lemma LastInPast(l: Limits, channel: string, now: Time)
    requires Faithful(l, now)
    ensures channel in l.channelChat ==> l.channelChat[channel] <= now
  {
    OnOrdered(l.history, channel, now);
    assert if On(l.history, channel) == [] then channel !in l.channelChat else true;
  }

  // ---------------------------------------------------------------------------
  // The documented numbers
  // ---------------------------------------------------------------------------

  /** The records of a kind that were completed after an instant, by position. */
  ghost function Recent(h: seq<Sent>, kind: Kind, after: Time): (s: set<int>) {
    set i | 0 <= i < |h| && h[i].kind == kind && h[i].at > after
  }

  lemma RecentFront(h: seq<Sent>, kind: Kind, after: Time)
    requires h != []
    ensures var n := |h| - 1;
            && n !in Recent(h[..n], kind, after)
            && Recent(h, kind, after)
               == Recent(h[..n], kind, after) + (if h[n].kind == kind && h[n].at > after then {n} else {})
  {
    var n := |h| - 1;
    var front, whole := Recent(h[..n], kind, after), Recent(h, kind, after);
    forall i: int
      ensures i in whole <==> i in front || (i == n && h[n].kind == kind && h[n].at > after)
    {
      if 0 <= i < n {
        assert h[..n][i] == h[i];
      }
    }
  }

  lemma NoneRecent(kind: Kind, after: Time)
    ensures Recent([], kind, after) == {}
  {
  }

  lemma CountFront(h: seq<Sent>, kind: Kind, after: Time)
    requires h != []
    ensures var last := h[|h| - 1];
            CountAfter(Of(h, kind), after)
            == CountAfter(Of(h[..|h| - 1], kind), after) + (if last.kind == kind && last.at > after then 1 else 0)
  {
    var s, last := Of(h[..|h| - 1], kind), h[|h| - 1];
    assert (s + [last])[..|s|] == s && s + [] == s;
  }

  lemma {:induction false} RecentIsCount(h: seq<Sent>, kind: Kind, after: Time)
    ensures |Recent(h, kind, after)| == CountAfter(Of(h, kind), after)
  {
    hide Recent, CountAfter, Of;
    if h == [] {
      NoneRecent(kind, after);
      NoneCounted(kind, after);
    } else {
      RecentIsCount(h[..|h| - 1], kind, after);
      RecentFront(h, kind, after);
      CountFront(h, kind, after);
    }
  }

  lemma NoneCounted(kind: Kind, after: Time)
    ensures CountAfter(Of([], kind), after) == 0
  {
  }

  /** No chat record of the channel was completed after the instant. */
  ghost predicate NoneAfter(h: seq<Sent>, channel: string, cutoff: Time) {
    forall i | 0 <= i < |h| && h[i].kind.Chat? && h[i].channel == channel :: h[i].at <= cutoff
  }

  lemma NoneAfterFront(h: seq<Sent>, channel: string, cutoff: Time)
    requires h != []
    ensures var last := h[|h| - 1];
            NoneAfter(h, channel, cutoff) <==>
            NoneAfter(h[..|h| - 1], channel, cutoff) && (last.kind.Chat? && last.channel == channel ==> last.at <= cutoff)
  {
    assert forall i | 0 <= i < |h| - 1 :: h[i] == h[..|h| - 1][i];
  }

  lemma {:induction false} NoneOnChannel(h: seq<Sent>, channel: string, cutoff: Time)
    ensures CountAfter(On(h, channel), cutoff) == 0 <==> NoneAfter(h, channel, cutoff)
  {
    hide NoneAfter;
    if h != [] {
      var n := |h| - 1;
      NoneOnChannel(h[..n], channel, cutoff);
      NoneAfterFront(h, channel, cutoff);
      var s := On(h[..n], channel);
      assert (s + [h[n]])[..|s|] == s && s + [] == s;
    } else {
      NoneAfterNothing(channel, cutoff);
    }
  }

  lemma NoneAfterNothing(channel: string, cutoff: Time)
    ensures NoneAfter([], channel, cutoff)
  {
  }

  /** The answer in numbers: a chat message may start at t if and only if fewer than 20 chat
      records lie in the 30 s up to t and none of its channel in the last second; a JOIN if
      and only if fewer than 20 JOIN records lie in the 10 s up to t; others at once. */
  lemma AnswerInNumbers(l: Limits, channel: string, now: Time, t: Time)
    requires Faithful(l, now) && now <= t
    ensures Allowed(l, Chat, channel, now) <= t <==>
            && |Recent(l.history, Chat, t - 30 * SECOND)| < 20
            && forall i | 0 <= i < |l.history| && l.history[i].kind.Chat? && l.history[i].channel == channel ::
                 l.history[i].at <= t - SECOND
    ensures Allowed(l, Join, channel, now) <= t <==> |Recent(l.history, Join, t - 10 * SECOND)| < 20
    ensures Allowed(l, System, channel, now) == now
  {
    hide Faithful, Allowed, Recent, CountAfter, Of, On;
    AllowedIsLeast(l, Chat, channel, now, t);
    AllowedIsLeast(l, Join, channel, now, t);
    SystemAtOnce(l, channel, now);
    RecentIsCount(l.history, Chat, t - 30 * SECOND);
    RecentIsCount(l.history, Join, t - 10 * SECOND);
    NoneOnChannel(l.history, channel, t - SECOND);
  }

  lemma SystemAtOnce(l: Limits, channel: string, now: Time)
    ensures Allowed(l, System, channel, now) == now
  {
  }
}
