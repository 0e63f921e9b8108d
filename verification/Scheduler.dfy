/** The outbound half of a session: a bounded queue of timed messages drained by
    one asynchronous write at a time. Each function is what one entry point of
    the session does to this state. */
module Scheduler {
  import opened Basics
  import opened RateLimits

  const MAX_OUTBOUND_QUEUE: nat := 1_000

  datatype Outbound = Outbound(wireData: string, kind: Kind, channel: string, due: Time, sequence: nat)

  datatype EndReason = NetworkError | ReconnectRequested | Fatal | Stopped

  /** What happened to the messages of this session; the program keeps none of it.
      - ioPending: the completion handler of a started write has not run yet
      - startedAt: when the most recent write was started
      - offered: everything enqueued while the session was open
      - written, dropped, refused: completed writes, chat dropped at a full queue,
        the protocol message that found the queue full and closed the session
      - ended: the calls of the end handler */
  datatype Ledger = Ledger(
    ioPending: bool,
    startedAt: Time,
    offered: seq<Outbound>,
    written: seq<Outbound>,
    dropped: seq<Outbound>,
    refused: seq<Outbound>,
    ended: seq<EndReason>)

  datatype Outbox = Outbox(
    limits: Limits,
    outbound: seq<Outbound>,
    currentWrite: Option<Outbound>,
    writeInProgress: bool,
    closed: bool,
    nextSequence: nat,
    writeTimer: Option<Time>,
    ledger: Ledger)

  const EMPTY_LEDGER := Ledger(false, 0, [], [], [], [], [])

  /** A new session; the limiter is the client's and keeps its state. */
  function FreshOutbox(limits: Limits): Outbox {
    Outbox(limits, [], None, false, false, 0, None, EMPTY_LEDGER)
  }

  /** The earliest instant, not before now, at which m could be written. */
  function ReadyAt(l: Limits, m: Outbound, now: Time): Time {
    Max(m.due, Allowed(l, m.kind, m.channel, now))
  }

  predicate Before(l: Limits, a: Outbound, b: Outbound, now: Time) {
    || ReadyAt(l, a, now) < ReadyAt(l, b, now)
    || (ReadyAt(l, a, now) == ReadyAt(l, b, now) && a.sequence < b.sequence)
  }

  /** The scan of the queue: keep the first message unless a later one beats it. */
  function Best(q: seq<Outbound>, l: Limits, now: Time): (best: nat)
    requires q != []
    ensures best < |q|
    ensures forall i | 0 <= i < |q| :: !Before(l, q[i], q[best], now)
  {
    var n := |q| - 1;
    if n == 0 then 0
    else
      var b := Best(q[..n], l, now);
      assert forall i | 0 <= i < n :: q[i] == q[..n][i];
      if Before(l, q[n], q[b], now) then n else b
  }

  /** The limiter after it was asked about every queued message. */
  function AskAll(l: Limits, q: seq<Outbound>, now: Time): Limits {
    if q == [] then l
    else AfterAsk(AskAll(l, q[..|q| - 1], now), q[|q| - 1].kind, now)
  }

  function Removed(q: seq<Outbound>, i: nat): seq<Outbound>
    requires i < |q|
  {
    q[..i] + q[i + 1..]
  }

  /** Taking the chosen message out of the queue and starting its write. */
  function Start(o: Outbox, now: Time): Outbox
    requires o.outbound != []
  {
    var chosen := Best(o.outbound, o.limits, now);
    o.(limits := AskAll(o.limits, o.outbound, now),
       currentWrite := Some(o.outbound[chosen]),
       outbound := Removed(o.outbound, chosen),
       writeInProgress := true,
       ledger := o.ledger.(ioPending := true, startedAt := now))
  }

  function ScheduleWrite(o: Outbox, now: Time): Outbox {
    if o.closed || o.writeInProgress || o.outbound == [] then o
    else
      var time := ReadyAt(o.limits, o.outbound[Best(o.outbound, o.limits, now)], now);
      if time > now then o.(limits := AskAll(o.limits, o.outbound, now), writeTimer := Some(time))
      else Start(o, now)
  }

  function Finish(o: Outbox, reason: EndReason): Outbox {
    if o.closed then o
    else o.(closed := true, writeTimer := None, ledger := o.ledger.(ended := o.ledger.ended + [reason]))
  }

  function Offered(o: Outbox, m: Outbound): Outbox {
    o.(ledger := o.ledger.(offered := o.ledger.offered + [m]))
  }

  function Queued(o: Outbox, m: Outbound): Outbox {
    Offered(o, m).(outbound := o.outbound + [m])
  }

  function Dropped(o: Outbox, m: Outbound): Outbox {
    var o := Offered(o, m);
    o.(ledger := o.ledger.(dropped := o.ledger.dropped + [m]))
  }

  function Refused(o: Outbox, m: Outbound): Outbox {
    var o := Offered(o, m);
    o.(ledger := o.ledger.(refused := o.ledger.refused + [m]))
  }

  function Enqueue(o: Outbox, m: Outbound, now: Time): Outbox {
    if o.closed then o
    else if |o.outbound| >= MAX_OUTBOUND_QUEUE then
      if m.kind.Chat? then Dropped(o, m) else Finish(Refused(o, m), NetworkError)
    else ScheduleWrite(Queued(o, m), now)
  }

  /** The outbox with the next number taken. */
  function Numbering(o: Outbox): Outbox {
    o.(nextSequence := o.nextSequence + 1)
  }

  /** The callers of enqueue stamp the message with the next sequence number. */
  function Offer(o: Outbox, wireData: string, kind: Kind, channel: string, due: Time, now: Time): Outbox {
    Enqueue(Numbering(o), Outbound(wireData, kind, channel, due, o.nextSequence), now)
  }

  /** The current write recorded and cleared. */
  function Completed(o: Outbox, now: Time): Outbox
    requires o.currentWrite.Some?
  {
    var m := o.currentWrite.value;
    o.(limits := AfterRecord(o.limits, m.kind, m.channel, o.ledger.startedAt, now),
       currentWrite := None,
       writeInProgress := false,
       ledger := o.ledger.(ioPending := false, written := o.ledger.written + [m]))
  }

  /** The write-completion handler without an error. */
  function OnWriteDone(o: Outbox, now: Time): Outbox
    requires o.currentWrite.Some?
  {
    ScheduleWrite(Completed(o, now), now)
  }

  /** The write-completion handler with an error: nothing is recorded. */
  function OnWriteFailed(o: Outbox): Outbox {
    Finish(o.(ledger := o.ledger.(ioPending := false)), NetworkError)
  }

  /** The write timer's handler without an error. */
  function OnTimer(o: Outbox, now: Time): Outbox {
    ScheduleWrite(o.(writeTimer := None), now)
  }
}
