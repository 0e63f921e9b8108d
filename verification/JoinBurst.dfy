/** The pace of a burst of JOINs in closed form, and that no schedule within the
    JOIN limit is faster at any position. */
module JoinBurst {
  import opened Basics
  import opened RateLimits
  import opened RateWindows
  import opened Scheduler
  import opened SchedulerInvariants
  import opened SchedulerTheorems

  function JoinMessage(channel: string, sequence: nat, due: Time): Outbound {
    Outbound("JOIN #" + channel + "\r\n", Join, channel, due, sequence)
  }

  function JoinQueue(channels: seq<string>, first: nat, due: Time): seq<Outbound> {
    seq(|channels|, i requires 0 <= i < |channels| => JoinMessage(channels[i], first + i, due))
  }

  /** The burst as it is enqueued, one channel after the other. */
  function OfferJoins(o: Outbox, channels: seq<string>, now: Time): Outbox {
    if channels == [] then o
    else
      var n := |channels| - 1;
      Offer(OfferJoins(o, channels[..n], now), JoinMessage(channels[n], 0, now).wireData, Join, channels[n], now, now)
  }

  /** The instant of the k-th JOIN, counted from 0. */
  function Slot(begin: Time, k: nat): Time {
    begin + JOIN_WINDOW * (k / BURST)
  }

  /** The first k JOINs as records. */
  function Records(channels: seq<string>, begin: Time, k: nat): seq<Sent>
    requires k <= |channels|
  {
    seq(k, i requires 0 <= i < k => Sent(Join, channels[i], Slot(begin, i), Slot(begin, i)))
  }

  /** Every earlier JOIN has left the window. */
  ghost predicate Quiet(h: seq<Sent>, begin: Time) {
    forall i | 0 <= i < |Of(h, Join)| :: Of(h, Join)[i].at <= begin - JOIN_WINDOW
  }

  /** In terms of the limiter: the next question leaves its JOIN deque empty. */
  lemma QuietMeansEmpty(l: Limits, begin: Time)
    requires Faithful(l, begin)
    ensures Quiet(l.history, begin) <==> AfterAsk(l, Join, begin).joins == []
  {
    hide Of, LastPerChannel;
    var s := Of(l.history, Join);
    var kept := Pruned(l.joins, begin - JOIN_WINDOW);
    PruneKeepsSuffix(l.joins, s, begin - JOIN_WINDOW);
    assert kept != [] ==> s[|s| - |kept|].at > begin - JOIN_WINDOW;
  }

  lemma {:induction false} RecordsAreJoins(base: seq<Sent>, channels: seq<string>, begin: Time, k: nat)
    requires k <= |channels|
    ensures Of(base + Records(channels, begin, k), Join) == Of(base, Join) + Records(channels, begin, k)
  {
    if k == 0 {
      assert base + Records(channels, begin, 0) == base;
      assert Of(base, Join) + Records(channels, begin, 0) == Of(base, Join);
    } else {
      var front, last := Records(channels, begin, k - 1), Records(channels, begin, k)[k - 1];
      assert Records(channels, begin, k) == front + [last];
      assert base + Records(channels, begin, k) == (base + front) + [last];
      OfAppend(base + front, last, Join);
      RecordsAreJoins(base, channels, begin, k - 1);
      assert Of(base, Join) + Records(channels, begin, k) == Of(base, Join) + front + [last];
    }
  }

  lemma SlotSteps(begin: Time, k: nat)
    ensures Slot(begin, k) <= Slot(begin, k + 1)
    ensures k >= BURST ==> Slot(begin, k) == Slot(begin, k - BURST) + JOIN_WINDOW
    ensures k < BURST ==> Slot(begin, k) == begin
  {
  }

  /** After k+1 JOINs in their slots the history permits the next from the next slot on. */
  lemma PermittedFromNextSlot(h: seq<Sent>, base: seq<Sent>, channels: seq<string>, begin: Time, k: nat,
                              channel: string, t: Time)
    requires k < |channels| && Quiet(base, begin) && Ordered(h, Slot(begin, k))
    requires h == base + Records(channels, begin, k + 1) && Slot(begin, k) <= t
    ensures Permits(h, Join, channel, t) <==> Slot(begin, k + 1) <= t
  {
    hide Ordered, Of, CountAfter, Slot;
    var s := Of(base, Join) + Records(channels, begin, k + 1);
    RecordsAreJoins(base, channels, begin, k + 1);
    OfOrdered(h, Join, Slot(begin, k));
    CountBelow(s, t - JOIN_WINDOW, BURST, Slot(begin, k));
    SlotSteps(begin, k + 1);
    SlotsAscend(begin, 0, k);
    if k + 1 >= BURST {
      assert s[|s| - BURST] == Records(channels, begin, k + 1)[k + 1 - BURST];
    } else if |s| >= BURST {
      assert s[|s| - BURST] == Of(base, Join)[|s| - BURST];
    }
  }

  /** After k+1 JOINs in their slots the limiter's answer is the next slot. */
  lemma NextSlot(l: Limits, base: seq<Sent>, channels: seq<string>, begin: Time, k: nat, channel: string)
    requires k < |channels| && Quiet(base, begin)
    requires l.history == base + Records(channels, begin, k + 1) && Faithful(l, Slot(begin, k))
    ensures Allowed(l, Join, channel, Slot(begin, k)) == Slot(begin, k + 1)
  {
    hide Faithful, Allowed, Records, Slot, Permits, Of;
    var now, next := Slot(begin, k), Slot(begin, k + 1);
    SlotSteps(begin, k);
    FaithfulIsOrdered(l, now);
    var a := Allowed(l, Join, channel, now);
    AllowedIsLeast(l, Join, channel, now, next);
    AllowedIsLeast(l, Join, channel, now, a);
    PermittedFromNextSlot(l.history, base, channels, begin, k, channel, next);
    PermittedFromNextSlot(l.history, base, channels, begin, k, channel, a);
  }

  lemma FaithfulIsOrdered(l: Limits, now: Time)
    requires Faithful(l, now)
    ensures Ordered(l.history, now)
  {
  }

  /** Of waiting JOINs that are all due, the first in the queue is chosen. */
  lemma FirstJoinIsBest(l: Limits, channels: seq<string>, first: nat, due: Time, k: nat, now: Time)
    requires k < |channels| && due <= now && Faithful(l, now)
    ensures Best(JoinQueue(channels, first, due)[k..], l, now) == 0
    ensures ReadyAt(l, JoinMessage(channels[k], first + k, due), now) == Allowed(l, Join, channels[k], now)
  {
    hide Faithful;
    var q := JoinQueue(channels, first, due)[k..];
    var b := Best(q, l, now);
    AllowedIsLeast(l, Join, channels[k], now, now);
    assert !Before(l, q[0], q[b], now);
  }

  // ---------------------------------------------------------------------------
  // The burst, state by state
  // ---------------------------------------------------------------------------

  datatype Burst = Burst(base: seq<Sent>, channels: seq<string>, first: nat, begin: Time)

  ghost predicate Sending(b: Burst, o: Outbox, k: nat, now: Time) {
    && Inv(o, now) && !o.closed
    && k < |b.channels| && Quiet(b.base, b.begin)
    && now == Slot(b.begin, k) == o.ledger.startedAt
    && o.currentWrite == Some(JoinMessage(b.channels[k], b.first + k, b.begin))
    && o.outbound == JoinQueue(b.channels, b.first, b.begin)[k + 1..]
    && o.limits.history == b.base + Records(b.channels, b.begin, k)
  }

  ghost predicate Pausing(b: Burst, o: Outbox, k: nat, now: Time) {
    && Inv(o, now) && !o.closed
    && k < |b.channels| && Quiet(b.base, b.begin)
    && b.begin <= now <= Slot(b.begin, k)
    && o.currentWrite.None? && o.writeTimer == Some(Slot(b.begin, k))
    && o.outbound == JoinQueue(b.channels, b.first, b.begin)[k..]
    && o.limits.history == b.base + Records(b.channels, b.begin, k)
  }

  lemma JoinRecorded(b: Burst, k: nat)
    requires k < |b.channels|
    ensures b.base + Records(b.channels, b.begin, k) + [Sent(Join, b.channels[k], Slot(b.begin, k), Slot(b.begin, k))]
            == b.base + Records(b.channels, b.begin, k + 1)
  {
  }

  lemma StartShape(o: Outbox, now: Time)
    requires Waits(o) && Faithful(o.limits, now) && Best(o.outbound, o.limits, now) == 0
    requires ReadyAt(o.limits, o.outbound[0], now) <= now
    ensures ScheduleWrite(o, now).currentWrite == Some(o.outbound[0])
    ensures ScheduleWrite(o, now).outbound == o.outbound[1..]
    ensures ScheduleWrite(o, now).limits.history == o.limits.history
    ensures ScheduleWrite(o, now).ledger.startedAt == now
    ensures !ScheduleWrite(o, now).closed
  {
    hide Faithful, Best, ReadyAt;
    AskAllKeeps(o.limits, o.outbound, now);
  }

  lemma PauseShape(o: Outbox, now: Time)
    requires Waits(o) && Faithful(o.limits, now) && Best(o.outbound, o.limits, now) == 0
    requires ReadyAt(o.limits, o.outbound[0], now) > now
    ensures ScheduleWrite(o, now).writeTimer == Some(ReadyAt(o.limits, o.outbound[0], now))
    ensures ScheduleWrite(o, now).outbound == o.outbound
    ensures ScheduleWrite(o, now).currentWrite == o.currentWrite
    ensures ScheduleWrite(o, now).limits.history == o.limits.history
    ensures !ScheduleWrite(o, now).closed
  {
    hide Faithful, Best, ReadyAt;
    AskAllKeeps(o.limits, o.outbound, now);
  }

  lemma CompletedShape(b: Burst, o: Outbox, k: nat, now: Time)
    requires Sending(b, o, k, now)
    ensures Inv(OnWriteDone(o, now), now)
    ensures Core(Completed(o, now), now) && Faithful(Completed(o, now).limits, now)
    ensures Completed(o, now).limits.history == b.base + Records(b.channels, b.begin, k + 1)
    ensures !Completed(o, now).writeInProgress && !Completed(o, now).closed
    ensures Completed(o, now).outbound == JoinQueue(b.channels, b.first, b.begin)[k + 1..]
  {
    hide Balanced, Numbered, Order, SystemFifo, Paced, Armed, JoinQueue, Records, Faithful, Slot;
    JoinRecorded(b, k);
    WriteDoneKeeps(o, now);
    CompleteKeepsPaced(o, now);
    assert Started(Completed(o, now)) == Started(o);
    CoreIsFaithful(Completed(o, now), now);
  }

  lemma SendingStep(b: Burst, o: Outbox, k: nat, now: Time)
    requires Sending(b, o, k, now) && k + 1 < |b.channels|
    ensures var (o', now') := Round(o, now);
            Sending(b, o', k + 1, now') || Pausing(b, o', k + 1, now')
  {
    hide Core, Inv, Faithful, Records, Best, ReadyAt, ScheduleWrite;
    var c := Completed(o, now);
    CompletedShape(b, o, k, now);
    SlotSteps(b.begin, k);
    assert b.begin <= now;
    FirstJoinIsBest(c.limits, b.channels, b.first, b.begin, k + 1, now);
    NextSlot(c.limits, b.base, b.channels, b.begin, k, b.channels[k + 1]);
    if Slot(b.begin, k + 1) <= now {
      StartShape(c, now);
      ScheduleModes(c, now);
    } else {
      PauseShape(c, now);
    }
  }

  lemma ScheduleModes(o: Outbox, now: Time)
    requires Core(o, now)
    ensures Modes(ScheduleWrite(o, now))
  {
    hide Core;
    ScheduleKeeps(o, now);
    CoreModes(ScheduleWrite(o, now), now);
  }

  lemma PausingStep(b: Burst, o: Outbox, k: nat, now: Time)
    requires Pausing(b, o, k, now)
    ensures var (o', now') := Round(o, now);
            Sending(b, o', k, now')
  {
    hide Core, Faithful, Records, Best, ReadyAt, ScheduleWrite, Armed;
    var t := Slot(b.begin, k);
    var c := o.(writeTimer := None);
    InvLater(o, now, t);
    TimerKeeps(o, t);
    CoreIsFaithful(o, t);
    CoreModes(o, now);
    WakeStartsWrite(o, now, t);
    FirstJoinIsBest(c.limits, b.channels, b.first, b.begin, k, t);
    if ReadyAt(c.limits, c.outbound[0], t) > t {
      PauseShape(c, t);
      CoreModes(OnTimer(o, t), t);
      assert false;
    }
    StartShape(c, t);
  }

  lemma {:induction false} RoundsIdle(o: Outbox, now: Time, n: nat)
    requires o.currentWrite.None? && o.outbound == []
    ensures Rounds(o, now, n).0.limits == o.limits
    ensures Rounds(o, now, n).0.outbound == [] && Rounds(o, now, n).0.currentWrite.None?
    decreases n
  {
    if n > 0 {
      var (o', now') := Round(o, now);
      RoundsIdle(o', now', n - 1);
    }
  }

  ghost predicate Underway(b: Burst, o: Outbox, k: nat, now: Time) {
    Sending(b, o, k, now) || Pausing(b, o, k, now)
  }

  function Left(b: Burst, o: Outbox, k: nat): int {
    2 * (|b.channels| - k) + (if o.currentWrite.Some? then 0 else 1)
  }

  lemma LastStep(b: Burst, o: Outbox, k: nat, now: Time)
    requires Sending(b, o, k, now) && k + 1 == |b.channels|
    ensures var (o', now') := Round(o, now);
            && o'.outbound == [] && o'.currentWrite.None?
            && o'.limits.history == b.base + Records(b.channels, b.begin, |b.channels|)
  {
    hide Core, Inv, Faithful, Records;
    CompletedShape(b, o, k, now);
  }

  lemma {:induction false} BurstRuns(b: Burst, o: Outbox, k: nat, now: Time, n: nat)
    requires Underway(b, o, k, now) && Left(b, o, k) <= n
    ensures Rounds(o, now, n).0.limits.history == b.base + Records(b.channels, b.begin, |b.channels|)
    ensures Rounds(o, now, n).0.outbound == []
    decreases n
  {
    hide Inv, Records, Slot, JoinQueue, Round;
    var (o', now') := Round(o, now);
    if Pausing(b, o, k, now) {
      PausingStep(b, o, k, now);
      BurstRuns(b, o', k, now', n - 1);
    } else if k + 1 < |b.channels| {
      SendingStep(b, o, k, now);
      BurstRuns(b, o', k + 1, now', n - 1);
    } else {
      LastStep(b, o, k, now);
      RoundsIdle(o', now', n - 1);
    }
  }

  // ---------------------------------------------------------------------------
  // The burst as it is enqueued
  // ---------------------------------------------------------------------------

  /** The session is open and idle, and no JOIN, of this or of an earlier session, is
      still in the limiter's window. */
  ghost predicate Idle(o: Outbox, now: Time) {
    Inv(o, now) && !o.closed && o.outbound == [] && o.currentWrite.None? && Quiet(o.limits.history, now)
  }

  lemma {:induction false} OfferJoinsSends(o: Outbox, channels: seq<string>, now: Time)
    requires Idle(o, now) && 0 < |channels| <= MAX_OUTBOUND_QUEUE
    ensures Sending(Burst(o.limits.history, channels, o.nextSequence, now), OfferJoins(o, channels, now), 0, now)
  {
    hide Inv, Offer, JoinQueue, Records, Slot;
    var n := |channels| - 1;
    BurstShapes(o, channels, now);
    if n == 0 {
      assert OfferJoins(o, channels[..0], now) == o;
      OfferKeeps(o, JoinMessage(channels[0], 0, now).wireData, Join, channels[0], now, now);
      FirstOffer(o, channels[0], now);
    } else {
      var p := OfferJoins(o, channels[..n], now);
      OfferJoinsSends(o, channels[..n], now);
      OfferKeeps(p, JoinMessage(channels[n], 0, now).wireData, Join, channels[n], now, now);
      NextNumber(o, channels[..n], now);
      BurstShapes(o, channels[..n], now);
      NextOffer(p, channels[n], now);
    }
  }

  lemma BurstShapes(o: Outbox, channels: seq<string>, now: Time)
    requires channels != []
    ensures o.limits.history + Records(channels, now, 0) == o.limits.history
    ensures Slot(now, 0) == now
    ensures var n := |channels| - 1;
            var q := JoinQueue(channels, o.nextSequence, now);
            && |q| == n + 1
            && (n == 0 ==> q[1..] == [])
            && (n > 0 ==> |JoinQueue(channels[..n], o.nextSequence, now)| == n
                          && q[1..] == JoinQueue(channels[..n], o.nextSequence, now)[1..]
                                       + [JoinMessage(channels[n], o.nextSequence + n, now)])
  {
    var n := |channels| - 1;
    var m := JoinMessage(channels[n], o.nextSequence + n, now);
    assert JoinQueue(channels, o.nextSequence, now) == JoinQueue(channels[..n], o.nextSequence, now) + [m];
  }

  /** While a write is in flight a further JOIN only queues up. */
  lemma NextOffer(o: Outbox, channel: string, now: Time)
    requires Inv(o, now) && !o.closed && o.currentWrite.Some? && |o.outbound| < MAX_OUTBOUND_QUEUE
    ensures var m := JoinMessage(channel, o.nextSequence, now);
            var o' := Offer(o, m.wireData, Join, channel, now, now);
            && o'.outbound == o.outbound + [m]
            && o'.currentWrite == o.currentWrite && o'.closed == o.closed
            && o'.limits == o.limits && o'.ledger.startedAt == o.ledger.startedAt
  {
    hide Core, Armed;
    CoreModes(o, now);
  }

  lemma {:induction false} NextNumber(o: Outbox, channels: seq<string>, now: Time)
    ensures OfferJoins(o, channels, now).nextSequence == o.nextSequence + |channels|
  {
    hide Best, ReadyAt, AskAll;
    if channels != [] {
      NextNumber(o, channels[..|channels| - 1], now);
    }
  }

  /** The first JOIN of a burst leaves at once. */
  lemma FirstOffer(o: Outbox, channel: string, now: Time)
    requires Idle(o, now)
    ensures var m := JoinMessage(channel, o.nextSequence, now);
            var o' := Offer(o, m.wireData, Join, channel, now, now);
            && o'.currentWrite == Some(m) && o'.outbound == [] && o'.ledger.startedAt == now
            && o'.limits.history == o.limits.history && !o'.closed
  {
    hide Core, Armed, Faithful, AskAll, Allowed, Permits, Quiet;
    var m := JoinMessage(channel, o.nextSequence, now);
    CoreModes(o, now);
    CoreIsFaithful(o, now);
    AskAllKeeps(o.limits, [m], now);
    AllowedIsLeast(o.limits, Join, channel, now, now);
    FaithfulIsOrdered(o.limits, now);
    QuietPermits(o.limits.history, channel, now);
    var q := o.outbound + [m];
    assert q == [m];
    assert Best(q, o.limits, now) == 0;
    assert Removed(q, 0) == [];
  }

  lemma QuietPermits(h: seq<Sent>, channel: string, now: Time)
    requires Quiet(h, now) && Ordered(h, now)
    ensures Permits(h, Join, channel, now)
  {
    hide Of, Ordered;
    OfOrdered(h, Join, now);
    CountBelow(Of(h, Join), now - JOIN_WINDOW, 1, now);
  }

  /** With instantaneous writes and no JOIN left in the window, the k-th JOIN of a burst (from 0) is
      written at begin + 10 s * floor(k / 20), in the order of the channels. */
  lemma BurstPace(o: Outbox, channels: seq<string>, begin: Time, n: nat)
    requires Idle(o, begin) && 0 < |channels| <= MAX_OUTBOUND_QUEUE && 2 * |channels| <= n
    ensures var o' := Rounds(OfferJoins(o, channels, begin), begin, n).0;
            && o'.limits.history == o.limits.history + Records(channels, begin, |channels|)
            && o'.outbound == []
    ensures forall k | 0 <= k < |channels| ::
              Records(channels, begin, |channels|)[k]
              == Sent(Join, channels[k], begin + 10 * SECOND * (k / 20), begin + 10 * SECOND * (k / 20))
  {
    hide Inv, Rounds, OfferJoins, Slot;
    OfferJoinsSends(o, channels, begin);
    BurstRuns(Burst(o.limits.history, channels, o.nextSequence, begin), OfferJoins(o, channels, begin), 0, begin, n);
    forall k | 0 <= k < |channels|
      ensures Slot(begin, k) == begin + 10 * SECOND * (k / 20)
    {
      SlotFormula(begin, k);
    }
  }

  lemma SlotFormula(begin: Time, k: nat)
    ensures Slot(begin, k) == begin + 10 * SECOND * (k / 20)
  {
  }

  // ---------------------------------------------------------------------------
  // No faster schedule exists
  // ---------------------------------------------------------------------------

  function InJoinWindow(xs: seq<Time>, a: Time): nat {
    CountIn(xs, a, a + JOIN_WINDOW)
  }

  /** A schedule of JOINs from `begin` on that never puts more than 20 into 10 seconds. */
  ghost predicate WithinJoinLimit(xs: seq<Time>, begin: Time) {
    && (forall i, j | 0 <= i <= j < |xs| :: xs[i] <= xs[j])
    && (forall i | 0 <= i < |xs| :: begin <= xs[i])
    && (forall a :: InJoinWindow(xs, a) <= BURST)
  }

  lemma {:induction false} CountAll(xs: seq<Time>, a: Time, b: Time)
    requires forall i | 0 <= i < |xs| :: a <= xs[i] < b
    ensures CountIn(xs, a, b) == |xs|
  {
    if xs != [] {
      CountAll(xs[..|xs| - 1], a, b);
    }
  }

  lemma CrowdedWindow(xs: seq<Time>, k: nat)
    requires forall i, j | 0 <= i <= j < |xs| :: xs[i] <= xs[j]
    requires BURST <= k < |xs| && xs[k] < xs[k - BURST] + JOIN_WINDOW
    ensures InJoinWindow(xs, xs[k - BURST]) > BURST
  {
    var a := xs[k - BURST];
    var part := xs[k - BURST..k + 1];
    CountAll(part, a, a + JOIN_WINDOW);
    CountSplit(xs, k + 1, a, a + JOIN_WINDOW);
    CountSplit(xs[..k + 1], k - BURST, a, a + JOIN_WINDOW);
    assert xs[..k + 1][k - BURST..] == part;
  }

  lemma LimitSpaces(xs: seq<Time>, begin: Time, k: nat)
    requires WithinJoinLimit(xs, begin) && BURST <= k < |xs|
    ensures xs[k - BURST] + JOIN_WINDOW <= xs[k]
  {
    assert InJoinWindow(xs, xs[k - BURST]) <= BURST;
    if xs[k] < xs[k - BURST] + JOIN_WINDOW {
      CrowdedWindow(xs, k);
    }
  }

  /** The client's pace is pointwise optimal. */
  lemma {:induction false} BurstIsOptimal(xs: seq<Time>, begin: Time, k: nat)
    requires WithinJoinLimit(xs, begin) && k < |xs|
    ensures Slot(begin, k) <= xs[k]
  {
    hide WithinJoinLimit;
    SlotSteps(begin, k);
    if k < BURST {
      assert begin <= xs[k] by { NotBefore(xs, begin, k); }
    } else {
      BurstIsOptimal(xs, begin, k - BURST);
      LimitSpaces(xs, begin, k);
    }
  }

  lemma NotBefore(xs: seq<Time>, begin: Time, k: nat)
    requires WithinJoinLimit(xs, begin) && k < |xs|
    ensures begin <= xs[k]
  {
  }

  lemma SlotsAscend(begin: Time, i: nat, j: nat)
    requires i <= j
    ensures begin <= Slot(begin, i) <= Slot(begin, j)
  {
    assert i / BURST <= j / BURST;
  }

  /** The client's pace is itself within the limit, so the bound above is attained. */
  lemma SlotsWithinLimit(begin: Time, n: nat)
    ensures WithinJoinLimit(seq(n, i requires 0 <= i < n => Slot(begin, i)), begin)
  {
    var xs := seq(n, i requires 0 <= i < n => Slot(begin, i));
    hide Slot;
    forall i | BURST <= i < n
      ensures xs[i - BURST] + JOIN_WINDOW <= xs[i]
    {
      SlotSteps(begin, i);
    }
    forall i, j | 0 <= i <= j < n
      ensures xs[i] <= xs[j] && begin <= xs[i]
    {
      SlotsAscend(begin, i, j);
    }
    forall a
      ensures InJoinWindow(xs, a) <= BURST
    {
      WindowHoldsAtMost(xs, BURST, JOIN_WINDOW, a);
    }
  }
}
