/** What every entry point of the outbound half keeps, at any instants of a
    clock that never goes back. */
module SchedulerInvariants {
  import opened Basics
  import opened RateLimits
  import opened RateWindows
  import opened Scheduler

  /** The writes started so far, in order: the completed ones and the current one. */
  function Started(o: Outbox): seq<Outbound> {
    o.ledger.written + (if o.currentWrite.Some? then [o.currentWrite.value] else [])
  }

  function SystemOf(q: seq<Outbound>): seq<Outbound> {
    if q == [] then []
    else SystemOf(q[..|q| - 1]) + (if q[|q| - 1].kind.System? then [q[|q| - 1]] else [])
  }

  ghost predicate Modes(o: Outbox) {
    && (o.writeInProgress <==> o.currentWrite.Some?)
    && (o.ledger.ioPending ==> o.writeInProgress)
    && (!o.closed ==> o.ledger.ended == [] && (o.ledger.ioPending <==> o.writeInProgress))
    && (o.closed ==> |o.ledger.ended| == 1 && o.writeTimer.None?)
    && |o.outbound| <= MAX_OUTBOUND_QUEUE
    && (o.ledger.refused != [] ==> o.closed && |o.ledger.refused| == 1 && !o.ledger.refused[0].kind.Chat?)
    && (o.ledger.refused != [] ==>
          o.ledger.offered != [] && o.ledger.offered[|o.ledger.offered| - 1] == o.ledger.refused[0])
    && (!o.closed ==> |o.ledger.offered| == o.nextSequence)
  }

  /** Every offered message is in exactly one place (sequence numbers being distinct). */
  ghost predicate Balanced(offered: seq<Outbound>, outbound: seq<Outbound>, started: seq<Outbound>,
                           dropped: seq<Outbound>, refused: seq<Outbound>)
  {
    && multiset(offered) == multiset(outbound) + multiset(started) + multiset(dropped) + multiset(refused)
    && (forall m | m in dropped :: m.kind.Chat?)
  }

  ghost predicate Numbered(offered: seq<Outbound>, nextSequence: nat) {
    && (forall i | 0 <= i < |offered| :: offered[i].sequence == i)
    && |offered| <= nextSequence
  }

  ghost predicate QueueOrder(q: seq<Outbound>, now: Time) {
    && (forall i, j | 0 <= i < j < |q| :: q[i].sequence < q[j].sequence)
    && (forall i | 0 <= i < |q| :: q[i].kind.System? ==> q[i].due <= now)
  }

  ghost predicate Below(q: seq<Outbound>, nextSequence: nat) {
    forall i | 0 <= i < |q| :: q[i].sequence < nextSequence
  }

  /** Must a waiting `earlier` with the smaller number be written before `later`? */
  predicate KeepsPlace(earlier: Outbound, later: Outbound) {
    || earlier.kind.System?
    || (earlier.kind == later.kind && earlier.channel == later.channel && earlier.due <= later.due)
  }

  /** No started write overtook a waiting message that keeps its place. */
  ghost predicate NotOvertaken(waiting: seq<Outbound>, started: seq<Outbound>) {
    forall i, j | 0 <= i < |waiting| && 0 <= j < |started| ::
      && waiting[i].sequence != started[j].sequence
      && (KeepsPlace(waiting[i], started[j]) ==> started[j].sequence < waiting[i].sequence)
  }

  /** No started write overtook one that was started after it. */
  ghost predicate WireOrder(started: seq<Outbound>) {
    forall i, j | 0 <= i < j < |started| ::
      && started[i].sequence != started[j].sequence
      && (KeepsPlace(started[j], started[i]) ==> started[i].sequence < started[j].sequence)
  }

  ghost predicate Order(q: seq<Outbound>, started: seq<Outbound>, nextSequence: nat, now: Time) {
    && QueueOrder(q, now)
    && Below(q, nextSequence)
    && Below(started, nextSequence)
    && NotOvertaken(q, started)
    && WireOrder(started)
  }

  /** System messages: the written ones, then the waiting ones, are the offered ones in order. */
  ghost predicate SystemFifo(offered: seq<Outbound>, started: seq<Outbound>, q: seq<Outbound>, refused: seq<Outbound>) {
    SystemOf(started) + SystemOf(q) + SystemOf(refused) == SystemOf(offered)
  }

  /** The write started at `start` was permitted then, and nothing was recorded since. */
  ghost predicate InFlight(l: Limits, m: Outbound, start: Time) {
    && Faithful(l, start)
    && Permits(l.history, m.kind, m.channel, start)
    && RoomFor(l, m.kind)
  }

  /** The last records of the shared history are this session's completed writes. */
  ghost predicate RecordsWritten(h: seq<Sent>, w: seq<Outbound>) {
    && |w| <= |h|
    && (forall i | 0 <= i < |w| :: h[|h| - |w| + i].kind == w[i].kind && h[|h| - |w| + i].channel == w[i].channel)
  }

  ghost predicate Paced(o: Outbox, now: Time) {
    && Faithful(o.limits, now)
    && Disciplined(o.limits.history)
    && RecordsWritten(o.limits.history, o.ledger.written)
    && (o.ledger.ioPending && o.currentWrite.Some? ==>
          o.ledger.startedAt <= now && InFlight(o.limits, o.currentWrite.value, o.ledger.startedAt))
  }

  predicate Sendable(h: seq<Sent>, m: Outbound, t: Time) {
    m.due <= t && Permits(h, m.kind, m.channel, t)
  }

  ghost predicate SendableFrom(h: seq<Sent>, m: Outbound, from: Time) {
    forall t | from <= t :: Sendable(h, m, t)
  }

  ghost predicate Waits(o: Outbox) {
    !o.closed && !o.writeInProgress && o.outbound != []
  }

  /** The deadline is the first instant from now on at which some message is sendable. */
  ghost predicate ArmedFor(h: seq<Sent>, q: seq<Outbound>, now: Time, deadline: Time) {
    && (forall i, t | 0 <= i < |q| && now <= t && Sendable(h, q[i], t) :: deadline <= t)
    && (exists i :: 0 <= i < |q| && SendableFrom(h, q[i], Max(now, deadline)))
  }

  ghost predicate NoSystem(q: seq<Outbound>) {
    forall i | 0 <= i < |q| :: !q[i].kind.System?
  }

  ghost predicate Armed(o: Outbox, now: Time) {
    && o.writeTimer.Some?
    && NoSystem(o.outbound)
    && ArmedFor(o.limits.history, o.outbound, now, o.writeTimer.value)
  }

  /** Everything but the timer: what holds in the middle of an entry point too. */
  ghost predicate Core(o: Outbox, now: Time) {
    && Modes(o)
    && Balanced(o.ledger.offered, o.outbound, Started(o), o.ledger.dropped, o.ledger.refused)
    && Numbered(o.ledger.offered, o.nextSequence)
    && Order(o.outbound, Started(o), o.nextSequence, now)
    && SystemFifo(o.ledger.offered, Started(o), o.outbound, o.ledger.refused)
    && Paced(o, now)
  }

  ghost predicate Inv(o: Outbox, now: Time) {
    && Core(o, now)
    && (Waits(o) ==> Armed(o, now))
  }

  // ---------------------------------------------------------------------------
  // Asking the limiter about the whole queue
  // ---------------------------------------------------------------------------

  lemma {:induction false} AskAllKeeps(l: Limits, q: seq<Outbound>, now: Time)
    requires Faithful(l, now)
    ensures Faithful(AskAll(l, q, now), now)
    ensures AskAll(l, q, now).history == l.history
  {
    if q != [] {
      AskAllKeeps(l, q[..|q| - 1], now);
      AskKeepsFaithful(AskAll(l, q[..|q| - 1], now), q[|q| - 1].kind, now);
    }
  }

  lemma {:induction false} AskAllKeepsAnswers(l: Limits, q: seq<Outbound>, kind: Kind, channel: string, now: Time)
    ensures Allowed(AskAll(l, q, now), kind, channel, now) == Allowed(l, kind, channel, now)
  {
    if q != [] {
      var front := q[..|q| - 1];
      AskAllKeepsAnswers(l, front, kind, channel, now);
      AskKeepsAnswers(AskAll(l, front, now), q[|q| - 1].kind, kind, channel, now);
    }
  }

  lemma {:induction false} AskAllMakesRoom(l: Limits, q: seq<Outbound>, m: Outbound, now: Time)
    requires Faithful(l, now) && m in q && Allowed(l, m.kind, m.channel, now) <= now
    ensures RoomFor(AskAll(l, q, now), m.kind)
  {
    var front, last := q[..|q| - 1], q[|q| - 1];
    var asked := AskAll(l, front, now);
    if m in front {
      AskAllMakesRoom(l, front, m, now);
      AskKeepsRoom(asked, last.kind, m.kind, now);
    } else {
      AskAllKeeps(l, front, now);
      AskAllKeepsAnswers(l, front, m.kind, m.channel, now);
      AllowedMakesRoom(asked, m.kind, m.channel, now);
    }
  }

  /** ReadyAt is exact with respect to the full history. */
  lemma ReadyAtExact(l: Limits, m: Outbound, now: Time, t: Time)
    requires Faithful(l, now) && now <= t
    ensures Sendable(l.history, m, t) <==> ReadyAt(l, m, now) <= t
    ensures now <= ReadyAt(l, m, now)
  {
    AllowedIsLeast(l, m.kind, m.channel, now, t);
  }

  // ---------------------------------------------------------------------------
  // Removing the chosen message
  // ---------------------------------------------------------------------------

  lemma SystemOfAppend(q: seq<Outbound>, m: Outbound)
    ensures SystemOf(q + [m]) == SystemOf(q) + (if m.kind.System? then [m] else [])
  {
    assert (q + [m])[..|q|] == q;
  }

  lemma {:induction false} SystemOfConcat(a: seq<Outbound>, b: seq<Outbound>)
    ensures SystemOf(a + b) == SystemOf(a) + SystemOf(b)
  {
    if b == [] {
      assert a + b == a;
    } else {
      var front, last := b[..|b| - 1], b[|b| - 1];
      assert a + b == (a + front) + [last];
      SystemOfAppend(a + front, last);
      SystemOfConcat(a, front);
    }
  }

  lemma {:induction false} SystemOfNone(q: seq<Outbound>)
    requires forall i | 0 <= i < |q| :: !q[i].kind.System?
    ensures SystemOf(q) == []
  {
    if q != [] {
      SystemOfNone(q[..|q| - 1]);
    }
  }

  lemma RemovedIsRest(q: seq<Outbound>, i: nat)
    requires i < |q|
    ensures multiset(q) == multiset(Removed(q, i)) + multiset{q[i]}
    ensures forall m | m in Removed(q, i) :: m in q
  {
    assert q == q[..i] + [q[i]] + q[i + 1..];
  }

  /** If the removed message is a system message, it was the first of them. */
  lemma SystemOfRemoved(q: seq<Outbound>, i: nat)
    requires i < |q|
    requires q[i].kind.System? ==> forall j | 0 <= j < i :: !q[j].kind.System?
    ensures SystemOf(q) == (if q[i].kind.System? then [q[i]] else []) + SystemOf(Removed(q, i))
  {
    hide SystemOf;
    var front, back := q[..i], q[i + 1..];
    var m := if q[i].kind.System? then [q[i]] else [];
    assert q == front + [q[i]] + back;
    SystemOfConcat(front + [q[i]], back);
    SystemOfAppend(front, q[i]);
    SystemOfConcat(front, back);
    if q[i].kind.System? {
      SystemOfNone(front);
    }
    MoveFirst(SystemOf(front), m, SystemOf(back));
  }

  lemma MoveFirst(a: seq<Outbound>, m: seq<Outbound>, b: seq<Outbound>)
    requires a == [] || m == []
    ensures (a + m) + b == m + (a + b)
  {
  }

  /** The chosen message beats every queued message that keeps its place. */
  lemma ChosenRespectsPlace(l: Limits, q: seq<Outbound>, m: Outbound, now: Time)
    requires Faithful(l, now) && q != [] && m in q
    requires m.kind.System? ==> m.due <= now
    requires KeepsPlace(m, q[Best(q, l, now)])
    ensures q[Best(q, l, now)].sequence <= m.sequence
  {
    var c := q[Best(q, l, now)];
    assert !Before(l, m, c, now);
    ReadyAtExact(l, c, now, now);
  }

  // ---------------------------------------------------------------------------
  // Starting a write
  // ---------------------------------------------------------------------------

  lemma StartBalances(offered: seq<Outbound>, q: seq<Outbound>, b: nat, started: seq<Outbound>,
                      dropped: seq<Outbound>, refused: seq<Outbound>)
    requires b < |q| && Balanced(offered, q, started, dropped, refused)
    ensures Balanced(offered, Removed(q, b), started + [q[b]], dropped, refused)
  {
    RemovedIsRest(q, b);
  }

  lemma RemovedKeepsQueueOrder(q: seq<Outbound>, b: nat, nextSequence: nat, now: Time)
    requires b < |q| && QueueOrder(q, now) && Below(q, nextSequence)
    ensures QueueOrder(Removed(q, b), now) && Below(Removed(q, b), nextSequence)
    ensures forall i | 0 <= i < |Removed(q, b)| :: Removed(q, b)[i].sequence != q[b].sequence
  {
    var r := Removed(q, b);
    assert forall i | 0 <= i < |r| :: r[i] == q[if i < b then i else i + 1];
  }

  lemma RemovedNotOvertaken(l: Limits, q: seq<Outbound>, started: seq<Outbound>, now: Time)
    requires Faithful(l, now) && q != [] && QueueOrder(q, now) && NotOvertaken(q, started)
    ensures NotOvertaken(Removed(q, Best(q, l, now)), started + [q[Best(q, l, now)]])
  {
    hide Faithful, Best, Before;
    var b := Best(q, l, now);
    var r := Removed(q, b);
    var s := started + [q[b]];
    RemovedKeepsQueueOrder(q, b, q[|q| - 1].sequence + 1, now);
    forall i, j | 0 <= i < |r| && 0 <= j < |s|
      ensures r[i].sequence != s[j].sequence
      ensures KeepsPlace(r[i], s[j]) ==> s[j].sequence < r[i].sequence
    {
      var k := if i < b then i else i + 1;
      assert r[i] == q[k];
      if j == |started| {
        if KeepsPlace(q[k], q[b]) {
          ChosenRespectsPlace(l, q, q[k], now);
        }
      } else {
        assert s[j] == started[j];
      }
    }
  }

  lemma StartKeepsWireOrder(q: seq<Outbound>, b: nat, started: seq<Outbound>, nextSequence: nat)
    requires b < |q| && NotOvertaken(q, started) && WireOrder(started)
    requires Below(q, nextSequence) && Below(started, nextSequence)
    ensures WireOrder(started + [q[b]]) && Below(started + [q[b]], nextSequence)
  {
  }

  lemma StartKeepsOrder(l: Limits, q: seq<Outbound>, started: seq<Outbound>, nextSequence: nat, now: Time)
    requires Faithful(l, now) && q != [] && Order(q, started, nextSequence, now)
    ensures Order(Removed(q, Best(q, l, now)), started + [q[Best(q, l, now)]], nextSequence, now)
  {
    hide Faithful, Best, Removed, QueueOrder, Below, NotOvertaken, WireOrder;
    var b := Best(q, l, now);
    RemovedKeepsQueueOrder(q, b, nextSequence, now);
    RemovedNotOvertaken(l, q, started, now);
    StartKeepsWireOrder(q, b, started, nextSequence);
  }

  lemma StartKeepsSystemFifo(l: Limits, offered: seq<Outbound>, started: seq<Outbound>, q: seq<Outbound>,
                             refused: seq<Outbound>, now: Time)
    requires Faithful(l, now) && q != [] && QueueOrder(q, now) && SystemFifo(offered, started, q, refused)
    ensures SystemFifo(offered, started + [q[Best(q, l, now)]], Removed(q, Best(q, l, now)), refused)
  {
    hide Faithful, Best, Removed, SystemOf;
    var b := Best(q, l, now);
    SystemOfAppend(started, q[b]);
    forall j | 0 <= j < b && q[b].kind.System?
      ensures !q[j].kind.System?
    {
      if q[j].kind.System? {
        ChosenRespectsPlace(l, q, q[j], now);
      }
    }
    SystemOfRemoved(q, b);
  }

  lemma StartIsPermitted(l: Limits, q: seq<Outbound>, now: Time)
    requires Faithful(l, now) && q != []
    requires ReadyAt(l, q[Best(q, l, now)], now) <= now
    ensures InFlight(AskAll(l, q, now), q[Best(q, l, now)], now)
    ensures AskAll(l, q, now).history == l.history
  {
    hide Faithful, Best, RoomFor, AskAll, Permits, Allowed;
    var c := q[Best(q, l, now)];
    AskAllKeeps(l, q, now);
    AskAllMakesRoom(l, q, c, now);
    ReadyAtExact(l, c, now, now);
  }

  lemma StartKeepsCore(o: Outbox, now: Time)
    requires Core(o, now) && Waits(o)
    requires ReadyAt(o.limits, o.outbound[Best(o.outbound, o.limits, now)], now) <= now
    ensures Core(Start(o, now), now)
  {
    hide Best, Balanced, Numbered, Order, SystemFifo, Faithful, Disciplined, RecordsWritten, InFlight, AskAll, Removed, ReadyAt;
    var q, b := o.outbound, Best(o.outbound, o.limits, now);
    var o' := Start(o, now);
    assert Started(o') == Started(o) + [q[b]];
    StartBalances(o.ledger.offered, q, b, Started(o), o.ledger.dropped, o.ledger.refused);
    assert QueueOrder(q, now) by { OrderHasQueueOrder(q, Started(o), o.nextSequence, now); }
    StartKeepsOrder(o.limits, q, Started(o), o.nextSequence, now);
    StartKeepsSystemFifo(o.limits, o.ledger.offered, Started(o), q, o.ledger.refused, now);
    StartIsPermitted(o.limits, q, now);
    InFlightIsFaithful(o'.limits, q[b], now);
    RemovedLength(q, b);
  }

  lemma OrderHasQueueOrder(q: seq<Outbound>, started: seq<Outbound>, nextSequence: nat, now: Time)
    requires Order(q, started, nextSequence, now)
    ensures QueueOrder(q, now)
  {
  }

  lemma InFlightIsFaithful(l: Limits, m: Outbound, start: Time)
    requires InFlight(l, m, start)
    ensures Faithful(l, start)
  {
  }

  lemma RemovedLength(q: seq<Outbound>, b: nat)
    requires b < |q|
    ensures |Removed(q, b)| == |q| - 1
  {
  }

  // ---------------------------------------------------------------------------
  // schedule_write
  // ---------------------------------------------------------------------------

  lemma ArmKeepsCore(o: Outbox, now: Time, time: Time)
    requires Core(o, now) && Waits(o)
    ensures Core(o.(limits := AskAll(o.limits, o.outbound, now), writeTimer := Some(time)), now)
  {
    hide Balanced, Numbered, Order, SystemFifo, Faithful, Disciplined, RecordsWritten, InFlight, AskAll;
    AskAllKeeps(o.limits, o.outbound, now);
    var o' := o.(limits := AskAll(o.limits, o.outbound, now), writeTimer := Some(time));
    assert Started(o') == Started(o);
  }

  lemma ArmedAtBest(l: Limits, q: seq<Outbound>, now: Time)
    requires Faithful(l, now) && q != []
    ensures ArmedFor(l.history, q, now, ReadyAt(l, q[Best(q, l, now)], now))
  {
    hide Faithful, Sendable, ReadyAt;
    var b := Best(q, l, now);
    var d := ReadyAt(l, q[b], now);
    forall i, t | 0 <= i < |q| && now <= t && Sendable(l.history, q[i], t)
      ensures d <= t
    {
      ReadyAtExact(l, q[i], now, t);
      assert !Before(l, q[i], q[b], now);
    }
    ReadyAtExact(l, q[b], now, now);
    forall t | d <= t
      ensures Sendable(l.history, q[b], t)
    {
      ReadyAtExact(l, q[b], now, t);
    }
    assert SendableFrom(l.history, q[b], d);
  }

  /** A system message would have been sendable at once. */
  lemma OnlyLimitedWait(l: Limits, q: seq<Outbound>, now: Time)
    requires Faithful(l, now) && q != [] && QueueOrder(q, now)
    requires ReadyAt(l, q[Best(q, l, now)], now) > now
    ensures NoSystem(q)
  {
    hide Faithful;
    forall i | 0 <= i < |q|
      ensures !q[i].kind.System?
    {
      assert !Before(l, q[i], q[Best(q, l, now)], now);
    }
  }

  lemma CoreQueueOrder(o: Outbox, now: Time)
    requires Core(o, now)
    ensures QueueOrder(o.outbound, now)
  {
    hide Balanced, Numbered, SystemFifo, Faithful, Disciplined, RecordsWritten, InFlight, NotOvertaken, WireOrder, Below,
      QueueOrder, Modes;
  }

  lemma CoreIsFaithful(o: Outbox, now: Time)
    requires Core(o, now)
    ensures Faithful(o.limits, now)
  {
    hide Balanced, Numbered, Order, SystemFifo, Faithful, Disciplined, RecordsWritten, InFlight;
  }

  lemma ScheduleKeeps(o: Outbox, now: Time)
    requires Core(o, now)
    ensures Inv(ScheduleWrite(o, now), now)
  {
    hide Core, ArmedFor, NoSystem, ReadyAt, AskAll, Best, Faithful, QueueOrder;
    if Waits(o) {
      var time := ReadyAt(o.limits, o.outbound[Best(o.outbound, o.limits, now)], now);
      if time > now {
        CoreIsFaithful(o, now);
        ArmKeepsCore(o, now, time);
        ArmedAtBest(o.limits, o.outbound, now);
        CoreQueueOrder(o, now);
        OnlyLimitedWait(o.limits, o.outbound, now);
        AskAllKeeps(o.limits, o.outbound, now);
      } else {
        StartKeepsCore(o, now);
      }
    }
  }

  // ---------------------------------------------------------------------------
  // The entry points
  // ---------------------------------------------------------------------------

  lemma CoreLater(o: Outbox, now: Time, later: Time)
    requires Core(o, now) && now <= later
    ensures Core(o, later)
  {
    hide Balanced, Numbered, SystemFifo, Faithful, Disciplined, RecordsWritten, InFlight, NotOvertaken, WireOrder, Below;
    FaithfulLater(o.limits, now, later);
  }

  lemma InvLater(o: Outbox, now: Time, later: Time)
    requires Inv(o, now) && now <= later
    ensures Inv(o, later)
  {
    hide Core, Sendable;
    CoreLater(o, now, later);
    if Waits(o) {
      var d := o.writeTimer.value;
      var i :| 0 <= i < |o.outbound| && SendableFrom(o.limits.history, o.outbound[i], Max(now, d));
      assert SendableFrom(o.limits.history, o.outbound[i], Max(later, d));
    }
  }

  lemma FreshKeeps(l: Limits, now: Time)
    requires Faithful(l, now) && Disciplined(l.history)
    ensures Inv(FreshOutbox(l), now)
  {
    hide Faithful, Disciplined;
  }

  /** Nothing but the mode flags, the timer and the log of ends changes. */
  ghost predicate SameMessages(o: Outbox, o': Outbox) {
    && o'.limits == o.limits
    && o'.outbound == o.outbound
    && o'.currentWrite == o.currentWrite
    && o'.nextSequence >= o.nextSequence
    && o'.ledger.offered == o.ledger.offered
    && o'.ledger.written == o.ledger.written
    && o'.ledger.dropped == o.ledger.dropped
    && o'.ledger.refused == o.ledger.refused
    && o'.ledger.startedAt == o.ledger.startedAt
    && (o'.ledger.ioPending ==> o.ledger.ioPending)
  }

  lemma OrderUpTo(q: seq<Outbound>, started: seq<Outbound>, n: nat, n': nat, now: Time)
    requires Order(q, started, n, now) && n <= n'
    ensures Order(q, started, n', now)
  {
  }

  lemma SameMessagesCore(o: Outbox, o': Outbox, now: Time)
    requires Core(o, now) && SameMessages(o, o') && Modes(o')
    ensures Core(o', now)
  {
    hide Balanced, Order, SystemFifo, Faithful, Disciplined, RecordsWritten, InFlight, Modes;
    assert Started(o') == Started(o);
    OrderUpTo(o.outbound, Started(o), o.nextSequence, o'.nextSequence, now);
  }

  lemma FinishKeeps(o: Outbox, reason: EndReason, now: Time)
    requires Inv(o, now)
    ensures Inv(Finish(o, reason), now)
  {
    SameMessagesFinish(o, reason, now);
  }

  lemma SameMessagesFinish(o: Outbox, reason: EndReason, now: Time)
    requires Core(o, now)
    ensures Core(Finish(o, reason), now)
  {
    hide Balanced, Numbered, Order, SystemFifo, Paced;
    SameMessagesCore(o, Finish(o, reason), now);
  }

  // What enqueue adds

  lemma PushKeepsOrder(q: seq<Outbound>, started: seq<Outbound>, m: Outbound, now: Time)
    requires Order(q, started, m.sequence, now) && (m.kind.System? ==> m.due <= now)
    ensures Order(q + [m], started, m.sequence + 1, now)
  {
  }

  lemma AppendNumbered(offered: seq<Outbound>, m: Outbound)
    requires Numbered(offered, |offered|) && m.sequence == |offered|
    ensures Numbered(offered + [m], |offered| + 1)
  {
  }

  lemma OfferedKeepsNumbered(o: Outbox, m: Outbound, now: Time)
    requires Core(o, now) && !o.closed && m.sequence == o.nextSequence
    ensures Numbered(o.ledger.offered + [m], o.nextSequence + 1)
  {
    hide Balanced, Order, SystemFifo, Paced;
    AppendNumbered(o.ledger.offered, m);
  }

  lemma PushSystemFifo(offered: seq<Outbound>, started: seq<Outbound>, q: seq<Outbound>, m: Outbound)
    requires SystemFifo(offered, started, q, [])
    ensures SystemFifo(offered + [m], started, q + [m], [])
  {
    SystemOfAppend(q, m);
    SystemOfAppend(offered, m);
  }

  lemma PushBalances(offered: seq<Outbound>, started: seq<Outbound>, q: seq<Outbound>, dropped: seq<Outbound>, m: Outbound)
    requires Balanced(offered, q, started, dropped, [])
    ensures Balanced(offered + [m], q + [m], started, dropped, [])
  {
  }

  lemma PushKeepsCore(o: Outbox, m: Outbound, now: Time)
    requires Core(o, now) && !o.closed && |o.outbound| < MAX_OUTBOUND_QUEUE
    requires m.sequence == o.nextSequence && (m.kind.System? ==> m.due <= now)
    ensures Core(Queued(Numbering(o), m), now)
  {
    hide Balanced, Numbered, Order, SystemFifo, Faithful, Disciplined, RecordsWritten, InFlight;
    var o' := Queued(Numbering(o), m);
    assert Started(o') == Started(o);
    assert o.ledger.refused == [];
    OfferedKeepsNumbered(o, m, now);
    PushKeepsOrder(o.outbound, Started(o), m, now);
    PushSystemFifo(o.ledger.offered, Started(o), o.outbound, m);
    PushBalances(o.ledger.offered, Started(o), o.outbound, o.ledger.dropped, m);
  }

  lemma DropSystemFifo(offered: seq<Outbound>, started: seq<Outbound>, q: seq<Outbound>, m: Outbound)
    requires SystemFifo(offered, started, q, []) && !m.kind.System?
    ensures SystemFifo(offered + [m], started, q, [])
  {
    SystemOfAppend(offered, m);
  }

  lemma DropBalances(offered: seq<Outbound>, started: seq<Outbound>, q: seq<Outbound>, dropped: seq<Outbound>, m: Outbound)
    requires Balanced(offered, q, started, dropped, []) && m.kind.Chat?
    ensures Balanced(offered + [m], q, started, dropped + [m], [])
  {
  }

  lemma DropKeeps(o: Outbox, m: Outbound, now: Time)
    requires Core(o, now) && !o.closed && m.kind.Chat? && m.sequence == o.nextSequence
    ensures Core(Dropped(Numbering(o), m), now)
  {
    hide Balanced, Numbered, Order, SystemFifo, Faithful, Disciplined, RecordsWritten, InFlight;
    assert Started(Dropped(Numbering(o), m)) == Started(o);
    assert o.ledger.refused == [];
    OfferedKeepsNumbered(o, m, now);
    OrderUpTo(o.outbound, Started(o), o.nextSequence, o.nextSequence + 1, now);
    DropSystemFifo(o.ledger.offered, Started(o), o.outbound, m);
    DropBalances(o.ledger.offered, Started(o), o.outbound, o.ledger.dropped, m);
  }

  lemma RefuseSystemFifo(offered: seq<Outbound>, started: seq<Outbound>, q: seq<Outbound>, m: Outbound)
    requires SystemFifo(offered, started, q, [])
    ensures SystemFifo(offered + [m], started, q, [m])
  {
    SystemOfAppend(offered, m);
  }

  lemma RefuseBalances(offered: seq<Outbound>, started: seq<Outbound>, q: seq<Outbound>, dropped: seq<Outbound>, m: Outbound)
    requires Balanced(offered, q, started, dropped, [])
    ensures Balanced(offered + [m], q, started, dropped, [m])
  {
  }

  lemma RefuseKeeps(o: Outbox, m: Outbound, now: Time)
    requires Core(o, now) && !o.closed && !m.kind.Chat? && m.sequence == o.nextSequence
    ensures Core(Finish(Refused(Numbering(o), m), NetworkError), now)
  {
    hide Balanced, Numbered, Order, SystemFifo, Faithful, Disciplined, RecordsWritten, InFlight;
    var o' := Finish(Refused(Numbering(o), m), NetworkError);
    assert Started(o') == Started(o);
    assert o.ledger.refused == [] && o'.ledger.refused == [m];
    OfferedKeepsNumbered(o, m, now);
    OrderUpTo(o.outbound, Started(o), o.nextSequence, o.nextSequence + 1, now);
    RefuseSystemFifo(o.ledger.offered, Started(o), o.outbound, m);
    RefuseBalances(o.ledger.offered, Started(o), o.outbound, o.ledger.dropped, m);
  }

  lemma OfferKeeps(o: Outbox, wireData: string, kind: Kind, channel: string, due: Time, now: Time)
    requires Inv(o, now) && (kind.System? ==> due <= now)
    ensures Inv(Offer(o, wireData, kind, channel, due, now), now)
  {
    hide Core, ArmedFor, NoSystem, Modes, ScheduleWrite;
    var m := Outbound(wireData, kind, channel, due, o.nextSequence);
    var o1 := Numbering(o);
    if o.closed {
      CoreModes(o, now);
      assert Modes(o1) by { ModesNumber(o); }
      SameMessagesCore(o, o1, now);
    } else if |o.outbound| >= MAX_OUTBOUND_QUEUE {
      if kind.Chat? {
        DropKeeps(o, m, now);
      } else {
        RefuseKeeps(o, m, now);
      }
    } else {
      PushKeepsCore(o, m, now);
      ScheduleKeeps(Queued(o1, m), now);
    }
  }

  lemma CoreModes(o: Outbox, now: Time)
    requires Core(o, now)
    ensures Modes(o)
  {
    hide Balanced, Numbered, Order, SystemFifo, Paced;
  }

  lemma ModesNumber(o: Outbox)
    requires Modes(o) && o.closed
    ensures Modes(Numbering(o))
  {
  }

  // What the write-completion handler changes

  lemma RecordKeepsRecords(h: seq<Sent>, w: seq<Outbound>, m: Outbound, start: Time, now: Time)
    requires RecordsWritten(h, w)
    ensures RecordsWritten(h + [Sent(m.kind, m.channel, start, now)], w + [m])
  {
  }

  lemma CompleteKeepsPaced(o: Outbox, now: Time)
    requires Paced(o, now) && o.ledger.ioPending && o.currentWrite.Some?
    ensures Paced(Completed(o, now), now)
  {
    hide Disciplined, RecordsWritten, Permits, RoomFor, Suffix, LastPerChannel, Ordered;
    var m := o.currentWrite.value;
    var start := o.ledger.startedAt;
    RecordKeepsFaithful(o.limits, m.kind, m.channel, start, now);
    RecordKeepsDiscipline(o.limits.history, Sent(m.kind, m.channel, start, now));
    RecordKeepsRecords(o.limits.history, o.ledger.written, m, start, now);
  }

  lemma WriteDoneKeeps(o: Outbox, now: Time)
    requires Inv(o, now) && o.ledger.ioPending
    ensures Inv(OnWriteDone(o, now), now)
  {
    hide Balanced, Numbered, Order, SystemFifo, Paced, Armed;
    var o' := Completed(o, now);
    CompleteKeepsPaced(o, now);
    assert Started(o') == Started(o);
    ScheduleKeeps(o', now);
  }

  lemma WriteFailedKeeps(o: Outbox, now: Time)
    requires Inv(o, now) && o.ledger.ioPending
    ensures Inv(OnWriteFailed(o), now)
  {
    hide Balanced, Numbered, Order, SystemFifo, Paced, Armed;
    SameMessagesCore(o, OnWriteFailed(o), now);
  }

  lemma TimerKeeps(o: Outbox, now: Time)
    requires Inv(o, now)
    ensures Inv(OnTimer(o, now), now)
  {
    hide Balanced, Numbered, Order, SystemFifo, Paced, Armed;
    var o' := o.(writeTimer := None);
    SameMessagesCore(o, o', now);
    ScheduleKeeps(o', now);
  }

  /** A wake-up without a timer of its own (a cancelled one that was already queued). */
  lemma StaleWakeKeeps(o: Outbox, now: Time)
    requires Inv(o, now)
    ensures Inv(ScheduleWrite(o, now), now)
  {
    hide Core, Armed;
    ScheduleKeeps(o, now);
  }
}
