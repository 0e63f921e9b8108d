/** From "permission was asked at the start" to "no window is ever overfull",
    for instants chosen anywhere between a write's start and its completion. */
module RateWindows {
  import opened RateLimits

  /** Each write starts at least w after the n-th write before it was completed. */
  ghost predicate Spaced(s: seq<Sent>, n: nat, w: Time) {
    forall i | n <= i < |s| :: s[i - n].at + w <= s[i].start
  }

  ghost predicate Disciplined(h: seq<Sent>) {
    && Spaced(Of(h, Join), BURST, JOIN_WINDOW)
    && Spaced(Of(h, Chat), BURST, CHAT_WINDOW)
    && (forall c :: Spaced(On(h, c), 1, CHANNEL_GAP))
  }

  predicate RoomFor(l: Limits, kind: Kind) {
    && (kind.Join? ==> |l.joins| < BURST)
    && (kind.Chat? ==> |l.globalChat| < BURST)
  }

  /** Being allowed now means that the question just asked has made room. */
  lemma AllowedMakesRoom(l: Limits, kind: Kind, channel: string, now: Time)
    requires Faithful(l, now) && Allowed(l, kind, channel, now) <= now
    ensures RoomFor(AfterAsk(l, kind, now), kind)
  {
    PruneKeepsSuffix(l.joins, Of(l.history, Join), now - JOIN_WINDOW);
    PruneKeepsSuffix(l.globalChat, Of(l.history, Chat), now - CHAT_WINDOW);
  }

  lemma {:induction false} PrunedIsNoLonger(entries: seq<Time>, cutoff: Time)
    ensures |Pruned(entries, cutoff)| <= |entries|
    decreases |entries|
  {
    if entries != [] && entries[0] <= cutoff {
      PrunedIsNoLonger(entries[1..], cutoff);
    }
  }

  lemma AskKeepsRoom(l: Limits, asked: Kind, kind: Kind, now: Time)
    requires RoomFor(l, kind)
    ensures RoomFor(AfterAsk(l, asked, now), kind)
  {
    PrunedIsNoLonger(l.joins, now - JOIN_WINDOW);
    PrunedIsNoLonger(l.globalChat, now - CHAT_WINDOW);
  }

  lemma SuffixAppend(entries: seq<Time>, s: seq<Sent>, cutoff: Time, x: Sent)
    requires Suffix(entries, s, cutoff) && |entries| < BURST
    ensures Suffix(entries + [x.at], s + [x], cutoff)
  {
    var s', e' := s + [x], entries + [x.at];
    forall i | 0 <= i < |e'|
      ensures e'[i] == s'[|s'| - |e'| + i].at
    {
    }
    forall i | 0 <= i < |s'| - |e'|
      ensures s'[i].at <= cutoff
    {
      assert s'[i] == s[i];
    }
  }

  lemma OrderedAppend(h: seq<Sent>, x: Sent)
    requires Ordered(h, x.start) && x.start <= x.at
    ensures Ordered(h + [x], x.at)
  {
  }

  lemma LastPerChannelAppend(m: map<string, Time>, h: seq<Sent>, x: Sent)
    requires LastPerChannel(m, h)
    ensures LastPerChannel(if x.kind.Chat? then m[x.channel := x.at] else m, h + [x])
  {
    forall c
      ensures On(h + [x], c) == On(h, c) + (if x.kind.Chat? && x.channel == c then [x] else [])
    {
      OnAppend(h, x, c);
    }
  }

  /** Recording a write whose start was permitted keeps the state faithful. */
  lemma RecordKeepsFaithful(l: Limits, kind: Kind, channel: string, start: Time, at: Time)
    requires Faithful(l, start) && start <= at && RoomFor(l, kind)
    ensures Faithful(AfterRecord(l, kind, channel, start, at), at)
  {
    hide Of, On, Suffix, LastPerChannel, Ordered;
    var x := Sent(kind, channel, start, at);
    assert forall s: seq<Sent> :: s + [] == s;
    FaithfulLater(l, start, at);
    OrderedAppend(l.history, x);
    OfAppend(l.history, x, Join);
    OfAppend(l.history, x, Chat);
    LastPerChannelAppend(l.channelChat, l.history, x);
    if kind.Join? {
      SuffixAppend(l.joins, Of(l.history, Join), at - JOIN_WINDOW, x);
    } else if kind.Chat? {
      SuffixAppend(l.globalChat, Of(l.history, Chat), at - CHAT_WINDOW, x);
    }
  }

  lemma SpacedAppend(s: seq<Sent>, n: nat, w: Time, x: Sent)
    requires n > 0 && Ordered(s, x.start) && Spaced(s, n, w)
    requires CountAfter(s, x.start - w) < n
    ensures Spaced(s + [x], n, w)
  {
    CountBelow(s, x.start - w, n, x.start);
  }

  lemma RecordKeepsDiscipline(h: seq<Sent>, x: Sent)
    requires Ordered(h, x.start) && Disciplined(h)
    requires Permits(h, x.kind, x.channel, x.start)
    ensures Disciplined(h + [x])
  {
    hide Of, On, Ordered, Spaced, CountAfter;
    OfAppend(h, x, Join);
    OfAppend(h, x, Chat);
    assert forall s: seq<Sent> :: s + [] == s;
    OfOrdered(h, Join, x.start);
    OfOrdered(h, Chat, x.start);
    if x.kind.Join? {
      SpacedAppend(Of(h, Join), BURST, JOIN_WINDOW, x);
    } else if x.kind.Chat? {
      SpacedAppend(Of(h, Chat), BURST, CHAT_WINDOW, x);
    }
    forall c
      ensures Spaced(On(h + [x], c), 1, CHANNEL_GAP)
    {
      OnAppend(h, x, c);
      OnOrdered(h, c, x.start);
      if x.kind.Chat? && x.channel == c {
        SpacedAppend(On(h, c), 1, CHANNEL_GAP, x);
      }
    }
  }

  // ---------------------------------------------------------------------------
  // Counting chosen instants in windows
  // ---------------------------------------------------------------------------

  /** xs picks, for each write, one instant between its start and its completion. */
  ghost predicate Chosen(h: seq<Sent>, xs: seq<Time>) {
    && |xs| == |h|
    && (forall i | 0 <= i < |h| :: h[i].start <= xs[i] <= h[i].at)
  }

  /** How many of the instants lie in the half-open window [a, b). */
  function CountIn(xs: seq<Time>, a: Time, b: Time): (n: nat) {
    if xs == [] then 0
    else CountIn(xs[..|xs| - 1], a, b) + (if a <= xs[|xs| - 1] < b then 1 else 0)
  }

  /** The instants of the writes of one kind. */
  function InstantsOf(h: seq<Sent>, xs: seq<Time>, kind: Kind): seq<Time>
    requires |h| == |xs|
  {
    if h == [] then []
    else
      var n := |h| - 1;
      InstantsOf(h[..n], xs[..n], kind) + (if h[n].kind == kind then [xs[n]] else [])
  }

  /** The instants of the chat writes to one channel. */
  function InstantsOn(h: seq<Sent>, xs: seq<Time>, channel: string): seq<Time>
    requires |h| == |xs|
  {
    if h == [] then []
    else
      var n := |h| - 1;
      InstantsOn(h[..n], xs[..n], channel)
      + (if h[n].kind.Chat? && h[n].channel == channel then [xs[n]] else [])
  }

  lemma {:induction false} InstantsOfChosen(h: seq<Sent>, xs: seq<Time>, kind: Kind)
    requires Chosen(h, xs)
    ensures Chosen(Of(h, kind), InstantsOf(h, xs, kind))
  {
    if h != [] {
      InstantsOfChosen(h[..|h| - 1], xs[..|h| - 1], kind);
    }
  }

  lemma {:induction false} InstantsOnChosen(h: seq<Sent>, xs: seq<Time>, channel: string)
    requires Chosen(h, xs)
    ensures Chosen(On(h, channel), InstantsOn(h, xs, channel))
  {
    if h != [] {
      InstantsOnChosen(h[..|h| - 1], xs[..|h| - 1], channel);
    }
  }

  lemma {:induction false} CountAtMostLength(xs: seq<Time>, a: Time, b: Time)
    ensures CountIn(xs, a, b) <= |xs|
  {
    if xs != [] {
      CountAtMostLength(xs[..|xs| - 1], a, b);
    }
  }

  lemma {:induction false} CountSplit(xs: seq<Time>, k: nat, a: Time, b: Time)
    requires k <= |xs|
    ensures CountIn(xs, a, b) == CountIn(xs[..k], a, b) + CountIn(xs[k..], a, b)
    decreases |xs|
  {
    if k == |xs| {
      assert xs[..k] == xs;
    } else {
      CountSplit(xs[..|xs| - 1], k, a, b);
      assert xs[..|xs| - 1][..k] == xs[..k];
      assert xs[..|xs| - 1][k..] == xs[k..][..|xs[k..]| - 1];
    }
  }

  lemma {:induction false} CountNone(xs: seq<Time>, a: Time, b: Time)
    requires forall i | 0 <= i < |xs| :: xs[i] < a
    ensures CountIn(xs, a, b) == 0
  {
    if xs != [] {
      CountNone(xs[..|xs| - 1], a, b);
    }
  }

  /** Non-decreasing instants, any n apart being at least w apart, put at most n
      of themselves into a window of length w. */
  lemma {:induction false} WindowHoldsAtMost(xs: seq<Time>, n: nat, w: Time, a: Time)
    requires n > 0
    requires forall i, j | 0 <= i <= j < |xs| :: xs[i] <= xs[j]
    requires forall i | n <= i < |xs| :: xs[i - n] + w <= xs[i]
    ensures CountIn(xs, a, a + w) <= n
    decreases |xs|
  {
    if |xs| <= n {
      CountAtMostLength(xs, a, a + w);
    } else if xs[|xs| - 1] >= a + w {
      WindowHoldsAtMost(xs[..|xs| - 1], n, w, a);
    } else {
      var k := |xs| - n;
      assert xs[k - 1] + w <= xs[|xs| - 1];
      CountNone(xs[..k], a, a + w);
      CountSplit(xs, k, a, a + w);
      CountAtMostLength(xs[k..], a, a + w);
    }
  }

  lemma SpacedWindow(s: seq<Sent>, xs: seq<Time>, n: nat, w: Time, now: Time, a: Time)
    requires n > 0 && Ordered(s, now) && Spaced(s, n, w) && Chosen(s, xs)
    ensures CountIn(xs, a, a + w) <= n
  {
    forall i, j | 0 <= i < j < |xs|
      ensures xs[i] <= xs[j]
    {
      assert s[i].at <= s[j].start;
    }
    forall i | n <= i < |xs|
      ensures xs[i - n] + w <= xs[i]
    {
      assert s[i - n].at + w <= s[i].start;
    }
    WindowHoldsAtMost(xs, n, w, a);
  }

  /** Window safety of a disciplined history. */
  lemma DisciplinedWindows(h: seq<Sent>, now: Time, xs: seq<Time>, a: Time)
    requires Ordered(h, now) && Disciplined(h) && Chosen(h, xs)
    ensures CountIn(InstantsOf(h, xs, Chat), a, a + CHAT_WINDOW) <= BURST
    ensures CountIn(InstantsOf(h, xs, Join), a, a + JOIN_WINDOW) <= BURST
  {
    OfOrdered(h, Chat, now);
    InstantsOfChosen(h, xs, Chat);
    SpacedWindow(Of(h, Chat), InstantsOf(h, xs, Chat), BURST, CHAT_WINDOW, now, a);
    OfOrdered(h, Join, now);
    InstantsOfChosen(h, xs, Join);
    SpacedWindow(Of(h, Join), InstantsOf(h, xs, Join), BURST, JOIN_WINDOW, now, a);
  }

  lemma DisciplinedGaps(h: seq<Sent>, now: Time, xs: seq<Time>, channel: string, i: nat, j: nat)
    requires Ordered(h, now) && Disciplined(h) && Chosen(h, xs)
    requires i < j < |InstantsOn(h, xs, channel)|
    ensures InstantsOn(h, xs, channel)[i] + CHANNEL_GAP <= InstantsOn(h, xs, channel)[j]
  {
    var s := On(h, channel);
    OnOrdered(h, channel, now);
    InstantsOnChosen(h, xs, channel);
    assert s[j - 1].at + CHANNEL_GAP <= s[j].start;
    assert i == j - 1 || s[i].at <= s[j - 1].start;
  }
}
