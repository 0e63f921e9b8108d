/** The session object: the same callbacks with fields that are updated in place,
    each proved against its function in Sessions and Scheduler. */
module IrcSessions {
  import opened Basics
  import opened Framing
  import opened IrcMessages
  import opened RateLimits
  import opened Configuration
  import opened Protocol
  import opened Automation
  import opened Scheduler
  import opened SchedulerInvariants
  import opened Sessions

  /** Calls of the end handler and of the ready handler are collected in `ended` and
      `readyCalls`; the client reacts to them after the callback. */
  class IrcSession {
    const config: RuntimeConfig
    const limiter: RateLimiter
    const protocol: SessionProtocol
    const automation: AutomationEngine
    const assembler: IrcStreamAssembler
    var outbound: seq<Outbound>
    var currentWrite: Option<Outbound>
    var nextSequence: nat
    var writeInProgress: bool
    var closed: bool
    var writeTimer: Option<Time>
    var authTimer: Option<Time>
    var ended: seq<EndReason>
    var readyCalls: nat
    ghost var ledger: Ledger

    ghost function Out(): Outbox
      reads this, limiter
    {
      Outbox(limiter.View(), outbound, currentWrite, writeInProgress, closed, nextSequence, writeTimer,
             ledger.(ended := ended))
    }

    ghost function View(): Session
      reads this, limiter, protocol, automation, assembler
    {
      Session(Out(), protocol.View(), automation.View(), assembler.buffer, authTimer, readyCalls)
    }

    ghost predicate Valid()
      reads this, automation
    {
      && protocol.config == config
      && automation.settings == config.bot
      && automation.Valid()
    }

    constructor (config: RuntimeConfig, limiter: RateLimiter)
      ensures Valid() && this.config == config && this.limiter == limiter
      ensures fresh(protocol) && fresh(automation) && fresh(assembler)
      ensures View() == NewSession(config, limiter.View())
    {
      this.config, this.limiter := config, limiter;
      protocol := new SessionProtocol(config);
      automation := new AutomationEngine(config.bot);
      assembler := new IrcStreamAssembler();
      outbound, currentWrite, nextSequence, writeInProgress, closed := [], None, 0, false, false;
      writeTimer, authTimer, ended, readyCalls := None, None, [], 0;
      ledger := EMPTY_LEDGER;
    }

    method Finish(reason: EndReason)
      requires Valid()
      modifies this
      ensures Valid() && View() == Close(old(View()), reason)
    {
      if closed {
        return;
      }
      closed := true;
      writeTimer := None;
      authTimer := None;
      ended := ended + [reason];
    }

    method Stop()
      requires Valid()
      modifies this
      ensures Valid() && View() == Close(old(View()), Stopped)
    {
      Finish(Stopped);
    }

    /** The scan over the queue; every question prunes the limiter. */
    method Select(now: Time) returns (chosen: nat, time: Time)
      requires outbound != []
      modifies limiter
      ensures limiter.View() == AskAll(old(limiter.View()), outbound, now)
      ensures chosen < |outbound| && chosen == Best(outbound, old(limiter.View()), now)
      ensures time == ReadyAt(old(limiter.View()), outbound[chosen], now)
    {
      hide Best, AskAll, Allowed, AfterAsk;
      ghost var limits := limiter.View();
      chosen := 0;
      var allowed := limiter.NextAllowed(outbound[0].kind, outbound[0].channel, now);
      time := Max(outbound[0].due, allowed);
      FirstAsked(limits, outbound, now);
      for i := 1 to |outbound|
        invariant chosen < i
        invariant limiter.View() == AskAll(limits, outbound[..i], now)
        invariant chosen == Best(outbound[..i], limits, now)
        invariant time == ReadyAt(limits, outbound[chosen], now)
      {
        NextAsked(limits, outbound, i, chosen, now);
        var next := limiter.NextAllowed(outbound[i].kind, outbound[i].channel, now);
        var ready := Max(outbound[i].due, next);
        if ready < time || (ready == time && outbound[i].sequence < outbound[chosen].sequence) {
          chosen, time := i, ready;
        }
      }
      assert outbound[..|outbound|] == outbound;
    }

    method ScheduleWrite(now: Time)
      requires Valid()
      modifies this, limiter
      ensures Valid()
      ensures View() == old(View()).(out := Scheduler.ScheduleWrite(old(View()).out, now))
    {
      hide Best, AskAll, ReadyAt;
      if closed || writeInProgress || outbound == [] {
        return;
      }
      var chosen, time := Select(now);
      if time > now {
        writeTimer := Some(time);
        return;
      }
      currentWrite := Some(outbound[chosen]);
      outbound := outbound[..chosen] + outbound[chosen + 1..];
      writeInProgress := true;
      ledger := ledger.(ioPending := true, startedAt := now);
    }

    method Enqueue(message: Outbound, now: Time)
      requires Valid()
      modifies this, limiter
      ensures Valid()
      ensures View() == WithOut(old(View()), Scheduler.Enqueue(old(View()).out, message, now))
    {
      hide Best, ReadyAt, AskAll;
      if closed {
        return;
      }
      ledger := ledger.(offered := ledger.offered + [message]);
      if |outbound| >= MAX_OUTBOUND_QUEUE {
        if message.kind.Chat? {
          ledger := ledger.(dropped := ledger.dropped + [message]);
          return;
        }
        ledger := ledger.(refused := ledger.refused + [message]);
        Finish(NetworkError);
        return;
      }
      outbound := outbound + [message];
      ScheduleWrite(now);
    }

    /** Stamping a message with the next sequence number, as every caller does. */
    method Send(line: string, kind: Kind, channel: string, due: Time, now: Time)
      requires Valid()
      modifies this, limiter
      ensures Valid() && View() == SendLine(old(View()), line, kind, channel, due, now)
    {
      hide Scheduler.Enqueue;
      var sequence := nextSequence;
      nextSequence := nextSequence + 1;
      Enqueue(Outbound(line, kind, channel, due, sequence), now);
    }

    method OnWriteDone(now: Time)
      requires Valid() && currentWrite.Some?
      modifies this, limiter
      ensures Valid()
      ensures View() == old(View()).(out := Scheduler.OnWriteDone(old(View()).out, now))
    {
      hide Best, ReadyAt, AskAll;
      limiter.Record(currentWrite.value.kind, currentWrite.value.channel, now, ledger.startedAt);
      ledger := ledger.(ioPending := false, written := ledger.written + [currentWrite.value]);
      currentWrite := None;
      writeInProgress := false;
      ScheduleWrite(now);
    }

    method OnWriteFailed()
      requires Valid()
      modifies this
      ensures Valid() && View() == WithOut(old(View()), Scheduler.OnWriteFailed(old(View()).out))
    {
      ledger := ledger.(ioPending := false);
      Finish(NetworkError);
    }

    method OnTimer(now: Time)
      requires Valid()
      modifies this, limiter
      ensures Valid()
      ensures View() == old(View()).(out := Scheduler.OnTimer(old(View()).out, now))
    {
      hide Best, ReadyAt, AskAll;
      writeTimer := None;
      ScheduleWrite(now);
    }

    method Apply(action: Action, now: Time)
      requires Valid()
      modifies this, limiter
      ensures Valid() && View() == ApplyAction(old(View()), action, now)
    {
      hide SendLine, Close;
      match action {
        case Send(data, kind, channel) => Send(data, kind, channel, now, now);
        case BecameReady =>
          authTimer := None;
          readyCalls := readyCalls + 1;
        case Reconnect => Finish(EndReason.ReconnectRequested);
        case GiveUp => Finish(Fatal);
      }
    }

    method SendAll(chats: seq<Scheduled>, now: Time)
      requires Valid()
      modifies this, limiter
      ensures Valid() && View() == SendChats(old(View()), chats, now)
    {
      hide SendLine, MakePrivmsg;
      for i := 0 to |chats|
        invariant Valid()
        invariant SendChats(View(), chats[i..], now) == SendChats(old(View()), chats, now)
      {
        assert chats[i..][1..] == chats[i + 1..];
        var line := MakePrivmsg(chats[i].channel, chats[i].text);
        if line.Ok? {
          Send(line.value, Chat, chats[i].channel, chats[i].due, now);
        }
      }
    }

    /** The result is false when the program leaves the call by an exception. */
    method HandleLine(line: string, now: Time) returns (ok: bool)
      requires Valid()
      modifies this, limiter, protocol, automation
      ensures Valid()
      ensures (View(), ok) == Sessions.HandleLine(config, old(View()), line, now)
    {
      hide ParseLine, AfterHandle, AfterEvent, SendChats, ApplyAction;
      var message := ParseIrcMessage(line);
      if message.None? {
        return true;
      }
      var actions := protocol.Handle(message.value);
      if actions.Thrown? {
        return false;
      }
      ghost var s1 := View();
      for i := 0 to |actions.value|
        invariant Valid()
        invariant i > 0 ==> !closed
        invariant ApplyActions(View(), actions.value[i..], now) == ApplyActions(s1, actions.value, now)
        invariant i == 0 ==> View() == s1
        invariant protocol.View() == s1.negotiation && automation.View() == s1.engine
      {
        assert actions.value[i..][1..] == actions.value[i + 1..];
        ApplyKeepsFields(View(), [actions.value[i]], now);
        assert [actions.value[i]][1..] == [];
        Apply(actions.value[i], now);
        if closed {
          return true;
        }
      }
      if protocol.state != Ready {
        return true;
      }
      var chats := automation.Handle(message.value, now);
      if chats.Thrown? {
        return false;
      }
      SendAll(chats.value, now);
      return true;
    }

    method OnRead(bytes: string, now: Time)
      requires Valid()
      modifies this, limiter, protocol, automation, assembler
      ensures Valid()
      ensures View() == Sessions.OnRead(config, old(View()), bytes, now)
    {
      hide Pushed, Sessions.HandleLine, Close;
      var lines := assembler.Push(bytes);
      if lines.Thrown? {
        Finish(NetworkError);
        return;
      }
      ghost var s1 := View();
      for i := 0 to |lines.value|
        invariant Valid()
        invariant HandleLines(config, View(), lines.value[i..], now) == HandleLines(config, s1, lines.value, now)
      {
        assert lines.value[i..][1..] == lines.value[i + 1..];
        var ok := HandleLine(lines.value[i], now);
        if !ok {
          Finish(NetworkError);
          return;
        }
        if closed {
          return;
        }
      }
    }

    method OnReadFailed()
      requires Valid()
      modifies this
      ensures Valid() && View() == Close(old(View()), NetworkError)
    {
      Finish(NetworkError);
    }

    /** The result is false when the program leaves the call by an exception. */
    method OnHandshake(now: Time) returns (ok: bool)
      requires Valid()
      modifies this, limiter, protocol
      ensures Valid() && View() == Sessions.OnHandshake(config, old(View()), now)
      ensures ok <==> AfterBegin(config, old(View()).negotiation).1.Ok?
    {
      hide AfterBegin, ApplyAction;
      var actions := protocol.Begin();
      if actions.Thrown? {
        return false;
      }
      ghost var s1 := View();
      for i := 0 to |actions.value|
        invariant Valid()
        invariant ApplyAll(View(), actions.value[i..], now) == ApplyAll(s1, actions.value, now)
      {
        assert actions.value[i..][1..] == actions.value[i + 1..];
        Apply(actions.value[i], now);
      }
      authTimer := Some(now + AUTH_TIMEOUT);
      return true;
    }

    method OnAuthTimeout()
      requires Valid()
      modifies this
      ensures Valid() && View() == Sessions.OnAuthTimeout(old(View()))
    {
      authTimer := None;
      if protocol.state != Ready {
        Finish(Fatal);
      }
    }

    /** Dispatch of one event to its handler. */
    method Callback(e: SessionEvent, now: Time)
      requires Valid() && (e.WriteDone? ==> currentWrite.Some?)
      modifies this, limiter, protocol, automation, assembler
      ensures Valid() && View() == Sessions.Callback(config, old(View()), e, now)
    {
      hide Sessions.OnRead, Sessions.OnHandshake, Sessions.OnAuthTimeout, Close;
      SameClosing(View(), now);
      match e {
        case HandshakeDone => var _ := OnHandshake(now);
        case DialFailed => Finish(NetworkError);
        case BytesRead(bytes) => OnRead(bytes, now);
        case ReadFailed => OnReadFailed();
        case AuthTimerFired => OnAuthTimeout();
        case StaleAuthTimer => OnAuthTimeout();
        case WriteTimerFired => OnTimer(now);
        case StaleWakeUp => ScheduleWrite(now);
        case WriteDone => OnWriteDone(now);
        case WriteFailed => OnWriteFailed();
      }
    }
  }

  /** Scheduling does not close the session. */
  lemma SameClosing(s: Session, now: Time)
    ensures WithOut(s, Scheduler.ScheduleWrite(s.out, now)) == s.(out := Scheduler.ScheduleWrite(s.out, now))
    ensures WithOut(s, Scheduler.OnTimer(s.out, now)) == s.(out := Scheduler.OnTimer(s.out, now))
    ensures s.out.currentWrite.Some? ==>
              WithOut(s, Scheduler.OnWriteDone(s.out, now)) == s.(out := Scheduler.OnWriteDone(s.out, now))
  {
    hide Best, ReadyAt, AskAll;
  }

  lemma FirstAsked(l: Limits, q: seq<Outbound>, now: Time)
    requires q != []
    ensures AskAll(l, q[..1], now) == AfterAsk(l, q[0].kind, now)
    ensures Best(q[..1], l, now) == 0
  {
    assert q[..1][..0] == [];
  }

  lemma NextAsked(l: Limits, q: seq<Outbound>, i: nat, chosen: nat, now: Time)
    requires 0 < i < |q| && chosen < i && chosen == Best(q[..i], l, now)
    ensures AskAll(l, q[..i + 1], now) == AfterAsk(AskAll(l, q[..i], now), q[i].kind, now)
    ensures Allowed(AskAll(l, q[..i], now), q[i].kind, q[i].channel, now) == Allowed(l, q[i].kind, q[i].channel, now)
    ensures Best(q[..i + 1], l, now) == if Before(l, q[i], q[chosen], now) then i else chosen
  {
    assert q[..i + 1][..i] == q[..i];
    AskAllKeepsAnswers(l, q[..i], q[i].kind, q[i].channel, now);
  }
}
