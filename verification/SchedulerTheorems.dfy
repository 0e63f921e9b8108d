/** What the invariant of the outbound half means: places of messages, order on
    the wire, fairness, wake-ups and draining. */
module SchedulerTheorems {
  import opened Basics
  import opened RateLimits
  import opened RateWindows
  import opened Scheduler
  import opened SchedulerInvariants

  // ---------------------------------------------------------------------------
  // Conservation
  // ---------------------------------------------------------------------------

  lemma {:induction false} NumberedOnce(offered: seq<Outbound>, m: Outbound)
    requires forall i | 0 <= i < |offered| :: offered[i].sequence == i
    ensures multiset(offered)[m] == if m in offered then 1 else 0
  {
    if offered != [] {
      var n := |offered| - 1;
      NumberedOnce(offered[..n], m);
      assert offered == offered[..n] + [offered[n]];
      assert forall x | x in offered[..n] :: x.sequence < n;
    }
  }

  /** How many places hold the message. */
  function Places(o: Outbox, m: Outbound): nat {
    multiset(o.outbound)[m]
    + (if o.currentWrite == Some(m) then 1 else 0)
    + multiset(o.ledger.written)[m]
    + multiset(o.ledger.dropped)[m]
    + multiset(o.ledger.refused)[m]
  }

  /** Each message offered to the open session is in exactly one place: queued, in
      flight, written, dropped as chat, or the one that closed the session. */
  lemma ExactlyOnePlace(o: Outbox, now: Time, m: Outbound)
    requires Inv(o, now)
    ensures Places(o, m) == if m in o.ledger.offered then 1 else 0
    ensures |o.outbound| <= MAX_OUTBOUND_QUEUE
    ensures m in o.ledger.dropped ==> m.kind.Chat?
    ensures m in o.ledger.refused ==> o.closed && !m.kind.Chat?
  {
    hide Order, SystemFifo, Paced, Armed;
    NumberedOnce(o.ledger.offered, m);
    assert multiset(Started(o))[m]
           == multiset(o.ledger.written)[m] + (if o.currentWrite == Some(m) then 1 else 0);
  }

  // ---------------------------------------------------------------------------
  // Order on the wire
  // ---------------------------------------------------------------------------

  lemma InvOrder(o: Outbox, now: Time)
    requires Inv(o, now)
    ensures Order(o.outbound, Started(o), o.nextSequence, now)
    ensures SystemFifo(o.ledger.offered, Started(o), o.outbound, o.ledger.refused)
    ensures Balanced(o.ledger.offered, o.outbound, Started(o), o.ledger.dropped, o.ledger.refused)
    ensures Numbered(o.ledger.offered, o.nextSequence)
    ensures Modes(o) && Faithful(o.limits, now)
  {
    hide Order, SystemFifo, Balanced, Numbered, Faithful, Disciplined, RecordsWritten, InFlight, Armed;
  }

  /** System messages leave in exactly the order in which they were offered. */
  lemma SystemMessagesInOrder(o: Outbox, now: Time)
    requires Inv(o, now)
    ensures SystemOf(Started(o)) <= SystemOf(o.ledger.offered)
  {
    hide SystemOf, Order, Balanced, Numbered, Modes, Faithful;
    InvOrder(o, now);
  }

  /** No write overtakes an earlier system message, nor an earlier message of the
      same kind and channel that was due no later. */
  lemma NoOvertaking(o: Outbox, now: Time, i: nat, j: nat)
    requires Inv(o, now)
    ensures i < j < |Started(o)| && Started(o)[j].sequence < Started(o)[i].sequence
            ==> !KeepsPlace(Started(o)[j], Started(o)[i])
    ensures i < |o.outbound| && j < |Started(o)| && o.outbound[i].sequence < Started(o)[j].sequence
            ==> !KeepsPlace(o.outbound[i], Started(o)[j])
  {
    hide SystemFifo, Balanced, Numbered, Modes, Faithful, KeepsPlace;
    InvOrder(o, now);
  }

  /** The position of a started write among the offered messages is its number. */
  lemma StartedWasOffered(o: Outbox, now: Time, i: nat)
    requires Inv(o, now) && i < |Started(o)|
    ensures Started(o)[i].sequence < |o.ledger.offered|
    ensures o.ledger.offered[Started(o)[i].sequence] == Started(o)[i]
  {
    hide Order, SystemFifo, Faithful, Modes;
    InvOrder(o, now);
    assert Started(o)[i] in multiset(o.ledger.offered);
    var k :| 0 <= k < |o.ledger.offered| && o.ledger.offered[k] == Started(o)[i];
  }

  /** An offered system message waits, was started, or is the last one, refused. */
  lemma SystemIsSomewhere(o: Outbox, now: Time, i: nat)
    requires Inv(o, now) && i < |o.ledger.offered| && o.ledger.offered[i].kind.System?
    ensures o.ledger.offered[i] in o.outbound || o.ledger.offered[i] in Started(o)
            || (o.ledger.refused == [o.ledger.offered[i]] && i == |o.ledger.offered| - 1)
  {
    hide Order, SystemFifo, Faithful;
    InvOrder(o, now);
    assert o.ledger.offered[i] in multiset(o.ledger.offered);
    if o.ledger.offered[i] in o.ledger.refused {
      assert o.ledger.refused == [o.ledger.offered[i]];
    }
  }

  /** System messages offered before everything else are written first, in that order. */
  lemma {:induction false} LeadersGoFirst(o: Outbox, now: Time, p: nat, i: nat)
    requires Inv(o, now) && p <= |o.ledger.offered| && i < p && i < |Started(o)|
    requires forall j | 0 <= j < p :: o.ledger.offered[j].kind.System?
    ensures Started(o)[i] == o.ledger.offered[i]
    decreases i
  {
    hide Inv, Started, SystemFifo, Balanced, Faithful;
    var s := Started(o);
    InvOrder(o, now);
    forall j | 0 <= j < i
      ensures s[j] == o.ledger.offered[j]
    {
      LeadersGoFirst(o, now, p, j);
    }
    StartedWasOffered(o, now, i);
    var k := s[i].sequence;
    assert forall j | 0 <= j < i :: s[j].sequence != k;
    var m := o.ledger.offered[i];
    SystemIsSomewhere(o, now, i);
    assert m in o.outbound ==> k < i by {
      WaitingSystemIsLater(o.outbound, s, m, i);
    }
    assert m in s ==> k <= i by {
      StartedSystemIsLater(s, m, i);
    }
  }

  lemma WaitingSystemIsLater(q: seq<Outbound>, started: seq<Outbound>, m: Outbound, i: nat)
    requires NotOvertaken(q, started) && i < |started| && m.kind.System?
    ensures m in q ==> started[i].sequence < m.sequence
  {
    assert forall w :: KeepsPlace(m, w);
  }

  lemma StartedSystemIsLater(started: seq<Outbound>, m: Outbound, i: nat)
    requires WireOrder(started) && i < |started| && m.kind.System?
    ensures m in started ==> started[i].sequence <= m.sequence || m in started[..i]
  {
    assert forall w :: KeepsPlace(m, w);
    if l :| 0 <= l < |started| && started[l] == m {
      assert l < i ==> started[..i][l] == m;
    }
  }

  // ---------------------------------------------------------------------------
  // Fairness
  // ---------------------------------------------------------------------------

  /** A chat message past its due time and its channel's gap is never passed over for
      a chat message with a larger number, whatever that one's due time and channel. */
  lemma ChatFairness(l: Limits, q: seq<Outbound>, m: Outbound, now: Time)
    requires Faithful(l, now) && m in q && m.kind.Chat? && m.due <= now
    requires CountAfter(On(l.history, m.channel), now - CHANNEL_GAP) == 0
    ensures var chosen := q[Best(q, l, now)];
            chosen.kind.Chat? ==> chosen.sequence <= m.sequence
  {
    hide Faithful, Allowed, CountAfter, On;
    var chosen := q[Best(q, l, now)];
    assert !Before(l, m, chosen, now);
    AllowedIsLeast(l, m.kind, m.channel, now, now);
    if chosen.kind.Chat? {
      OnlyGlobalLimit(l, m.channel, chosen.channel, now);
    }
  }

  /** Past its channel's gap a message waits for the global window only, like any other. */
  lemma OnlyGlobalLimit(l: Limits, channel: string, other: string, now: Time)
    requires Faithful(l, now) && CountAfter(On(l.history, channel), now - CHANNEL_GAP) == 0
    ensures Allowed(l, Chat, channel, now) <= Allowed(l, Chat, other, now)
  {
    hide Pruned, CountAfter, On, Of, Suffix, LastPerChannel, Ordered, BucketFree;
    ChannelExact(l, channel, now, now);
    OfOrdered(l.history, Chat, now);
    BucketExact(l.globalChat, Of(l.history, Chat), CHAT_WINDOW, now, now);
  }

  lemma StartedIsBest(o: Outbox, now: Time)
    requires Waits(o) && ScheduleWrite(o, now).writeInProgress
    ensures ScheduleWrite(o, now).currentWrite == Some(o.outbound[Best(o.outbound, o.limits, now)])
  {
    hide Best, AskAll, ReadyAt;
  }

  /** The same for the write that schedule_write starts. */
  lemma FairStart(o: Outbox, m: Outbound, now: Time)
    requires Inv(o, now) && Waits(o) && m in o.outbound && m.kind.Chat? && m.due <= now
    requires CountAfter(On(o.limits.history, m.channel), now - CHANNEL_GAP) == 0
    ensures var o' := ScheduleWrite(o, now);
            o'.writeInProgress ==>
              && o'.currentWrite.Some?
              && (o'.currentWrite.value.kind.Chat? ==> o'.currentWrite.value.sequence <= m.sequence)
  {
    hide Core, Armed, Faithful, Best, ScheduleWrite, CountAfter;
    CoreIsFaithful(o, now);
    ChatFairness(o.limits, o.outbound, m, now);
    if ScheduleWrite(o, now).writeInProgress {
      StartedIsBest(o, now);
    }
  }

  /** System messages are never held back: one that waits waits for a write in flight. */
  lemma SystemNeverDelayed(o: Outbox, now: Time, i: nat)
    requires Inv(o, now) && !o.closed && i < |o.outbound| && o.outbound[i].kind.System?
    ensures o.ledger.ioPending && o.currentWrite.Some?
  {
    hide Core, ArmedFor;
    CoreModes(o, now);
  }

  /** What happens to an offered message: it is dropped or closes the session exactly when
      the queue is full, and otherwise waits or is being written. */
  lemma OfferOutcome(o: Outbox, line: string, kind: Kind, channel: string, due: Time, now: Time)
    requires Inv(o, now) && !o.closed
    ensures var m := Outbound(line, kind, channel, due, o.nextSequence);
            var o' := Offer(o, line, kind, channel, due, now);
            && (m in o'.ledger.dropped <==> |o.outbound| == 1_000 && kind.Chat?)
            && (m in o'.ledger.refused <==> |o.outbound| == 1_000 && !kind.Chat?)
            && (o'.closed <==> |o.outbound| == 1_000 && !kind.Chat?)
            && (|o.outbound| < 1_000 ==> m in o'.outbound || o'.currentWrite == Some(m))
  {
    hide Core, Armed, ScheduleWrite;
    var m := Outbound(line, kind, channel, due, o.nextSequence);
    CoreModes(o, now);
    NotYetThere(o, now, m);
    if |o.outbound| < MAX_OUTBOUND_QUEUE {
      var pushed := Queued(Numbering(o), m);
      ScheduleKeepsMessages(pushed, now);
      StartKeepsOthers(pushed, now, m);
    }
  }

  /** A message with the next number is new. */
  lemma NotYetThere(o: Outbox, now: Time, m: Outbound)
    requires Inv(o, now) && !o.closed && m.sequence == o.nextSequence
    ensures m !in o.ledger.dropped && m !in o.ledger.refused
  {
    hide Order, SystemFifo, Paced, Armed;
    assert multiset(o.ledger.offered)[m] == 0 by {
      assert forall x | x in o.ledger.offered :: x.sequence < o.nextSequence;
    }
  }

  lemma StartKeepsOthers(o: Outbox, now: Time, m: Outbound)
    requires m in o.outbound
    ensures m in ScheduleWrite(o, now).outbound || ScheduleWrite(o, now).currentWrite == Some(m)
  {
    hide Best, AskAll, ReadyAt;
    if Waits(o) {
      var b := Best(o.outbound, o.limits, now);
      assert o.outbound == o.outbound[..b] + [o.outbound[b]] + o.outbound[b + 1..];
    }
  }

  // ---------------------------------------------------------------------------
  // Wake-ups
  // ---------------------------------------------------------------------------

  /** With nothing recorded meanwhile, waking starts a write exactly when the deadline has come. */
  lemma WakeStartsWrite(o: Outbox, now: Time, t: Time)
    requires Inv(o, now) && Waits(o) && now <= t
    ensures o.writeTimer.Some?
    ensures OnTimer(o, t).writeInProgress <==> o.writeTimer.value <= t
  {
    hide Core, Best, Faithful, Sendable, ReadyAt;
    CoreLater(o, now, t);
    CoreIsFaithful(o, t);
    var b := Best(o.outbound, o.limits, t);
    BestIsFirstReady(o.limits, o.outbound, t);
    if o.writeTimer.value <= t {
      var i :| 0 <= i < |o.outbound| && SendableFrom(o.limits.history, o.outbound[i], Max(now, o.writeTimer.value));
      assert Sendable(o.limits.history, o.outbound[i], t);
    }
  }

  /** The chosen message is sendable now if any is. */
  lemma BestIsFirstReady(l: Limits, q: seq<Outbound>, now: Time)
    requires Faithful(l, now) && q != []
    ensures forall i | 0 <= i < |q| && Sendable(l.history, q[i], now) :: ReadyAt(l, q[Best(q, l, now)], now) <= now
    ensures ReadyAt(l, q[Best(q, l, now)], now) <= now ==> Sendable(l.history, q[Best(q, l, now)], now)
  {
    hide Faithful, Sendable, ReadyAt;
    var b := Best(q, l, now);
    ReadyAtExact(l, q[b], now, now);
    forall i | 0 <= i < |q| && Sendable(l.history, q[i], now)
      ensures ReadyAt(l, q[b], now) <= now
    {
      ReadyAtExact(l, q[i], now, now);
      assert !Before(l, q[i], q[b], now);
    }
  }

  /** The deadline is never later than a message's due time or one chat window from now. */
  lemma DeadlineIsSoon(o: Outbox, now: Time, i: nat)
    requires Inv(o, now) && Waits(o) && i < |o.outbound|
    ensures o.writeTimer.Some? && o.writeTimer.value <= Max(o.outbound[i].due, now + CHAT_WINDOW)
  {
    hide Core, Faithful, Sendable, ReadyAt;
    CoreIsFaithful(o, now);
    var m := o.outbound[i];
    var t := ReadyAt(o.limits, m, now);
    assert t <= Max(m.due, now + CHAT_WINDOW) by { ReadySoon(o.limits, m, now); }
    ReadyAtExact(o.limits, m, now, now);
    ReadyAtExact(o.limits, m, now, t);
    assert o.writeTimer.value <= t;
  }

  lemma ReadySoon(l: Limits, m: Outbound, now: Time)
    requires Faithful(l, now)
    ensures ReadyAt(l, m, now) <= Max(m.due, now + CHAT_WINDOW)
  {
    hide Faithful, Allowed;
    AllowedSoon(l, m.kind, m.channel, now);
  }

  // ---------------------------------------------------------------------------
  // Draining
  // ---------------------------------------------------------------------------

  /** Without new input: a write completes at once, else the clock moves to the deadline. */
  function Round(o: Outbox, now: Time): (Outbox, Time) {
    if o.currentWrite.Some? then (OnWriteDone(o, now), now)
    else if o.writeTimer.Some? then
      var t := Max(now, o.writeTimer.value);
      (OnTimer(o, t), t)
    else (o, now)
  }

  function Rounds(o: Outbox, now: Time, n: nat): (Outbox, Time)
    decreases n
  {
    if n == 0 then (o, now)
    else
      var (o', now') := Round(o, now);
      Rounds(o', now', n - 1)
  }

  function Work(o: Outbox): nat {
    2 * |o.outbound| + (if o.writeInProgress then 1 else 0)
  }

  lemma ScheduleKeepsMessages(o: Outbox, now: Time)
    ensures var o' := ScheduleWrite(o, now);
            && o'.closed == o.closed
            && o'.ledger.offered == o.ledger.offered
            && o'.ledger.written == o.ledger.written
            && o'.ledger.dropped == o.ledger.dropped
            && o'.ledger.refused == o.ledger.refused
            && |o'.outbound| <= |o.outbound|
            && (!Waits(o) ==> o' == o)
            && (Waits(o) && o'.writeInProgress ==> |o'.outbound| == |o.outbound| - 1)
            && (!o'.writeInProgress ==> o'.outbound == o.outbound)
  {
    hide Best, ReadyAt, AskAll;
  }

  lemma RoundProgress(o: Outbox, now: Time)
    requires Inv(o, now) && !o.closed
    ensures var (o', now') := Round(o, now);
            && now <= now' && Inv(o', now') && !o'.closed
            && o'.ledger.offered == o.ledger.offered
            && o'.ledger.dropped == o.ledger.dropped
            && o'.ledger.refused == o.ledger.refused
            && (Work(o') < Work(o) || Work(o') == Work(o) == 0)
  {
    hide Core, Armed, ScheduleWrite, AskAll;
    CoreModes(o, now);
    if o.currentWrite.Some? {
      WriteDoneKeeps(o, now);
      ScheduleKeepsMessages(Completed(o, now), now);
    } else if o.writeTimer.Some? {
      var t := Max(now, o.writeTimer.value);
      InvLater(o, now, t);
      TimerKeeps(o, t);
      ScheduleKeepsMessages(o.(writeTimer := None), t);
      if o.outbound != [] {
        WakeStartsWrite(o, now, t);
      }
    } else {
      assert o.outbound == [] by { NothingArmed(o, now); }
    }
  }

  lemma NothingArmed(o: Outbox, now: Time)
    requires Inv(o, now) && o.writeTimer.None?
    ensures !Waits(o)
  {
    hide Core;
  }

  /** Without new input and with instantaneous writes the queue empties: everything that
      was waiting is written, nothing is dropped, and the session stays open. */
  lemma {:induction false} Drains(o: Outbox, now: Time, n: nat)
    requires Inv(o, now) && !o.closed && Work(o) <= n
    ensures var (o', now') := Rounds(o, now, n);
            && Inv(o', now') && !o'.closed
            && o'.outbound == [] && o'.currentWrite.None?
            && o'.ledger.offered == o.ledger.offered
            && multiset(o'.ledger.written) == multiset(Started(o)) + multiset(o.outbound)
    decreases n
  {
    hide Core, Armed, Round;
    DrainsTo(o, now, n);
    var (o', now') := Rounds(o, now, n);
    CoreModes(o', now');
    assert Started(o') == o'.ledger.written;
    WrittenIsRest(o, now, o', now');
  }

  lemma {:induction false} DrainsTo(o: Outbox, now: Time, n: nat)
    requires Inv(o, now) && !o.closed && Work(o) <= n
    ensures var (o', now') := Rounds(o, now, n);
            && Inv(o', now') && !o'.closed && Work(o') == 0
            && o'.ledger.offered == o.ledger.offered
            && o'.ledger.dropped == o.ledger.dropped
            && o'.ledger.refused == o.ledger.refused
    decreases n
  {
    hide Inv, Round, Work;
    if n > 0 {
      RoundProgress(o, now);
      var (o', now') := Round(o, now);
      DrainsTo(o', now', n - 1);
    }
  }

  lemma Cancel<T>(all: multiset<T>, a: multiset<T>, b: multiset<T>, c: multiset<T>, d: multiset<T>)
    requires all == a + c + d && all == b + c + d
    ensures a == b
  {
    assert a == all - c - d == b;
  }

  lemma WrittenIsRest(o: Outbox, now: Time, o': Outbox, now': Time)
    requires Inv(o, now) && Inv(o', now') && o'.outbound == []
    requires o'.ledger.offered == o.ledger.offered
    requires o'.ledger.dropped == o.ledger.dropped && o'.ledger.refused == o.ledger.refused
    ensures multiset(Started(o')) == multiset(Started(o)) + multiset(o.outbound)
  {
    hide Order, SystemFifo, Numbered, Modes, Faithful, Started;
    InvOrder(o, now);
    InvOrder(o', now');
    Cancel(multiset(o.ledger.offered), multiset(o.outbound) + multiset(Started(o)), multiset(Started(o')),
           multiset(o.ledger.dropped), multiset(o.ledger.refused));
  }
}
