/** The client: it owns the limiter, connects one session at a time, and backs off
    between sessions. */
module Clients {
  import opened Basics
  import opened RateLimits
  import opened Configuration
  import opened Scheduler
  import opened Sessions
  import opened IrcSessions

  const MILLISECOND: Time := 1_000_000
  const MAX_JITTER: nat := 500

  datatype Client = Client(
    reconnectTimer: Option<Time>,
    reconnectAttempt: nat,
    exitCode: int,
    stopping: bool,
    connected: bool)

  const NEW_CLIENT := Client(None, 0, 0, false, false)

  function Power2(n: nat): nat {
    if n == 0 then 1 else 2 * Power2(n - 1)
  }

  function BackoffSeconds(attempt: nat): nat {
    Power2(if attempt < 6 then attempt else 6)
  }

  function AfterSchedule(c: Client, delay: Time, now: Time): Client {
    if c.stopping then c else c.(reconnectTimer := Some(now + delay))
  }

  function AfterSessionEnd(c: Client, reason: EndReason, jitter: nat, now: Time): Client {
    var c := c.(connected := false);
    if c.stopping || reason.Stopped? then c
    else if reason.Fatal? then c.(exitCode := 1, stopping := true, reconnectTimer := None)
    else
      AfterSchedule(c.(reconnectAttempt := c.reconnectAttempt + 1),
                         BackoffSeconds(c.reconnectAttempt) * SECOND + jitter * MILLISECOND, now)
  }

  /** The handler calls that a session callback made: ready comes before end. */
  function React(c: Client, before: Session, after: Session, jitter: nat, now: Time): Client {
    var c := if after.readyCalls > before.readyCalls then c.(reconnectAttempt := 0) else c;
    var n := |before.out.ledger.ended|;
    if |after.out.ledger.ended| > n then AfterSessionEnd(c, after.out.ledger.ended[n], jitter, now) else c
  }

  class TwitchIrcClient {
    const config: RuntimeConfig
    const limiter: RateLimiter
    var session: IrcSession?
    var reconnectTimer: Option<Time>
    var reconnectAttempt: nat
    var exitCode: int
    var stopping: bool

    ghost function View(): Client
      reads this
    {
      Client(reconnectTimer, reconnectAttempt, exitCode, stopping, session != null)
    }

    ghost predicate Valid()
      reads this, session, if session == null then null else session.automation
    {
      session != null ==> session.Valid() && session.config == config && session.limiter == limiter
    }

    constructor (config: RuntimeConfig)
      ensures Valid() && this.config == config && fresh(limiter)
      ensures View() == NEW_CLIENT && limiter.View() == FRESH_LIMITS
    {
      this.config := config;
      limiter := new RateLimiter();
      session, reconnectTimer, reconnectAttempt, exitCode, stopping := null, None, 0, 0, false;
    }

    method Start(now: Time)
      requires Valid()
      modifies this`reconnectTimer
      ensures Valid() && View() == AfterSchedule(old(View()), 0, now)
    {
      ScheduleConnection(0, now);
    }

    method ScheduleConnection(delay: Time, now: Time)
      requires Valid()
      modifies this`reconnectTimer
      ensures Valid() && View() == AfterSchedule(old(View()), delay, now)
    {
      if stopping {
        return;
      }
      reconnectTimer := Some(now + delay);
    }

    /** The reconnect timer's handler without an error. */
    method OnReconnectTimer()
      requires Valid()
      modifies this`reconnectTimer, this`session
      ensures Valid()
      ensures old(stopping) ==> session == old(session) && View() == old(View()).(reconnectTimer := None)
      ensures !old(stopping) ==>
                && View() == old(View()).(reconnectTimer := None, connected := true)
                && fresh(session) && session.View() == NewSession(config, limiter.View())
      ensures limiter.View() == old(limiter.View())
    {
      reconnectTimer := None;
      if !stopping {
        Connect();
      }
    }

    method Connect()
      requires Valid()
      modifies this`session
      ensures Valid() && fresh(session) && View() == old(View()).(connected := true)
      ensures session.View() == NewSession(config, limiter.View())
      ensures limiter.View() == old(limiter.View())
    {
      session := new IrcSession(config, limiter);
    }

    method HandleSessionEnd(reason: EndReason, jitter: nat, now: Time)
      requires Valid()
      modifies this
      ensures Valid() && View() == AfterSessionEnd(old(View()), reason, jitter, now)
      ensures session == null
    {
      session := null;
      if stopping || reason == Stopped {
        return;
      }
      if reason == Fatal {
        exitCode := 1;
        stopping := true;
        reconnectTimer := None;
        return;
      }
      var exponent: nat := if reconnectAttempt < 6 then reconnectAttempt else 6;
      var seconds := Power2(exponent);
      reconnectAttempt := reconnectAttempt + 1;
      ScheduleConnection(seconds * SECOND + jitter * MILLISECOND, now);
    }

    /** The ready handler given to each session. */
    method OnReady()
      requires Valid()
      modifies this`reconnectAttempt
      ensures Valid() && View() == old(View()).(reconnectAttempt := 0)
    {
      reconnectAttempt := 0;
    }

    /** A callback of a session of this client, and the handler calls it makes. The session
        may be one that the client has already let go of. */
    method Deliver(s: IrcSession, e: SessionEvent, jitter: nat, now: Time)
      requires Valid() && s.Valid() && s.config == config && s.limiter == limiter
      requires e.WriteDone? ==> s.currentWrite.Some?
      modifies this, s, limiter, s.protocol, s.automation, s.assembler
      ensures Valid() && s.Valid()
      ensures s.View() == Callback(config, old(s.View()), e, now)
      ensures View() == React(old(View()), old(s.View()), s.View(), jitter, now)
      ensures session == null || session == old(session)
    {
      hide Callback, AfterSessionEnd;
      var reports, readies := |s.ended|, s.readyCalls;
      s.Callback(e, now);
      if s.readyCalls > readies {
        OnReady();
      }
      if |s.ended| > reports {
        HandleSessionEnd(s.ended[reports], jitter, now);
      }
    }

    method Stop(jitter: nat, now: Time)
      requires Valid()
      modifies this, session
      ensures Valid()
      ensures old(stopping) ==> unchanged(this) && (session != null ==> unchanged(session))
      ensures !old(stopping) ==> View() == old(View()).(stopping := true, reconnectTimer := None, connected := false)
      ensures !old(stopping) && old(session) != null ==>
                old(session).Valid() && old(session).View() == Close(old(session.View()), Stopped)
      ensures session == null || session == old(session)
    {
      if stopping {
        return;
      }
      stopping := true;
      reconnectTimer := None;
      if session != null {
        var s := session;
        var reports := |s.ended|;
        s.Stop();
        if |s.ended| > reports {
          HandleSessionEnd(s.ended[reports], jitter, now);
        }
        session := null;
      }
    }
  }

  // ---------------------------------------------------------------------------
  // Backoff in closed form
  // ---------------------------------------------------------------------------

  /** Consecutive non-fatal ends without a ready session; the waits they ask for. */
  function BackoffWaits(c: Client, ends: seq<(EndReason, nat, Time)>): (Client, Time) {
    if ends == [] then (c, 0)
    else
      var n := |ends| - 1;
      var (before, waited) := BackoffWaits(c, ends[..n]);
      var (reason, jitter, now) := ends[n];
      var after := AfterSessionEnd(before, reason, jitter, now);
      (after, waited + (if after.reconnectTimer.Some? then after.reconnectTimer.value - now else 0))
  }

  ghost predicate NonFatal(ends: seq<(EndReason, nat, Time)>) {
    forall i | 0 <= i < |ends| ::
      && (ends[i].0 == NetworkError || ends[i].0 == EndReason.ReconnectRequested)
      && ends[i].1 <= MAX_JITTER
  }

  function TotalJitter(ends: seq<(EndReason, nat, Time)>): nat {
    if ends == [] then 0 else TotalJitter(ends[..|ends| - 1]) + ends[|ends| - 1].1
  }

  function Min(a: nat, b: nat): nat {
    if a < b then a else b
  }

  function BaseSeconds(n: nat): int {
    Power2(Min(n, 7)) - 1 + 64 * (if n > 7 then n - 7 else 0)
  }

  lemma BaseStep(n: nat)
    ensures BaseSeconds(n + 1) == BaseSeconds(n) + BackoffSeconds(n)
    ensures 1 <= BackoffSeconds(n) <= 64
  {
    assert Power2(3) == 8 && Power2(6) == 8 * Power2(3) && Power2(7) == 2 * Power2(6) by {
      assert Power2(6) == 2 * Power2(5) && Power2(5) == 2 * Power2(4) && Power2(4) == 2 * Power2(3);
    }
    PowerMonotone(n);
  }

  lemma {:induction false} PowerMonotone(n: nat)
    ensures n < 6 ==> 1 <= Power2(n) <= 32
  {
    assert Power2(5) == 2 * Power2(4) && Power2(4) == 2 * Power2(3) && Power2(3) == 2 * Power2(2);
    assert Power2(2) == 4 && Power2(1) == 2 && Power2(0) == 1;
  }

  /** The wait that one non-fatal end asks for. */
  lemma OneWait(c: Client, reason: EndReason, jitter: nat, now: Time)
    requires !c.stopping && (reason == NetworkError || reason == EndReason.ReconnectRequested)
    ensures var after := AfterSessionEnd(c, reason, jitter, now);
            && !after.stopping && after.reconnectAttempt == c.reconnectAttempt + 1
            && after.reconnectTimer == Some(now + (BackoffSeconds(c.reconnectAttempt) * SECOND + jitter * MILLISECOND))
  {
    hide BackoffSeconds;
  }

  /** n consecutive non-fatal ends without a ready wait 2^min(n,7) - 1 + 64*max(0, n-7)
      seconds in total, plus the jitter, at most half a second each. */
  lemma {:induction false} BackoffTotal(c: Client, ends: seq<(EndReason, nat, Time)>)
    requires !c.stopping && c.reconnectAttempt == 0 && NonFatal(ends)
    ensures var (after, waited) := BackoffWaits(c, ends);
            && !after.stopping && after.reconnectAttempt == |ends|
            && waited == BaseSeconds(|ends|) * SECOND + TotalJitter(ends) * MILLISECOND
            && TotalJitter(ends) * MILLISECOND <= |ends| * (SECOND / 2)
            && (ends != [] ==> after.reconnectTimer.Some?
                               && after.reconnectTimer.value >= ends[|ends| - 1].2 + SECOND)
  {
    hide BackoffSeconds, BaseSeconds, AfterSessionEnd;
    if ends == [] {
      assert BaseSeconds(0) == 0 by { BaseZero(); }
    } else {
      var n := |ends| - 1;
      BackoffTotal(c, ends[..n]);
      BaseStep(n);
      OneWait(BackoffWaits(c, ends[..n]).0, ends[n].0, ends[n].1, ends[n].2);
    }
  }

  lemma BaseZero()
    ensures BaseSeconds(0) == 0
  {
  }
}
