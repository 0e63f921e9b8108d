/** The event loop that runs the handlers of the client and of its latest session, one at
    a time: each event of a run is a call of their methods. */
module EventLoops {
  import opened Basics
  import opened RateLimits
  import opened Configuration
  import opened Scheduler
  import opened Sessions
  import opened IrcSessions
  import opened Clients
  import opened ClientRuns

  /** A client that is stopping lets go of its session whatever the session reports. */
  lemma StoppingLetsGo(c: Client, s: Session, s': Session, jitter: nat, now: Time)
    requires c.stopping && s'.readyCalls == s.readyCalls
    ensures React(c, s, s', jitter, now).(connected := false) == c.(connected := false)
  {
  }

  lemma CloseCallsNoReady(s: Session, reason: EndReason)
    ensures Close(s, reason).readyCalls == s.readyCalls
  {
  }

  /** `latest` is kept alive by its handlers after the client has let go of it. */
  class EventLoop {
    const client: TwitchIrcClient
    var now: Time
    var latest: IrcSession?
    var dialing: bool
    var reading: bool
    var connections: nat

    ghost function View(): World
      reads this, client, client.limiter
      reads if latest == null then {} else {latest, latest.limiter, latest.protocol, latest.automation, latest.assembler}
    {
      World(now, client.View(), if latest == null then None else Some(latest.View()), dialing, reading, connections)
    }

    ghost predicate Valid()
      reads this, client, client.limiter, client.session, if client.session == null then null else client.session.automation
      reads latest, if latest == null then null else latest.automation
    {
      && client.Valid()
      && (client.session != null ==> client.session == latest)
      && (latest == null ==> client.limiter.View() == FRESH_LIMITS)
      && (latest != null ==> latest.Valid() && latest.config == client.config && latest.limiter == client.limiter)
    }

    /** The program's start. */
    constructor (config: RuntimeConfig, now: Time)
      ensures Valid() && client.config == config && View() == Begin(now)
    {
      var c := new TwitchIrcClient(config);
      c.Start(now);
      client := c;
      this.now, latest, dialing, reading, connections := now, null, false, false, 0;
    }

    method FireReconnectTimer(st: Step)
      requires Valid() && Enabled(View(), st) && WorldFits(client.config, View())
      requires st.event.ReconnectTimerFired?
      modifies this, client
      ensures Valid() && View() == Next(client.config, old(View()), st)
    {
      hide NewSession, SessionStep;
      var stopping := client.stopping;
      client.OnReconnectTimer();
      if !stopping {
        latest, dialing, reading, connections := client.session, true, false, connections + 1;
      }
      now := st.now;
    }

    method RequestStop(st: Step)
      requires Valid() && Enabled(View(), st) && WorldFits(client.config, View())
      requires st.event.StopRequested?
      modifies this, client, latest
      ensures Valid() && View() == Next(client.config, old(View()), st)
    {
      hide React, Close, SessionStep, AfterSessionEnd;
      if client.session != null {
        var c := client.View().(stopping := true, reconnectTimer := None);
        CloseCallsNoReady(latest.View(), Stopped);
        StoppingLetsGo(c, latest.View(), Close(latest.View(), Stopped), st.jitter, st.now);
      }
      client.Stop(st.jitter, st.now);
      now := st.now;
    }

    method RunHandler(e: SessionEvent, st: Step)
      requires Valid() && Enabled(View(), st) && WorldFits(client.config, View())
      requires st.event == Delivered(e)
      modifies this, client, client.limiter, latest, latest.protocol, latest.automation, latest.assembler
      ensures Valid() && View() == Next(client.config, old(View()), st)
    {
      hide Callback, React, Close;
      client.Deliver(latest, e, st.jitter, st.now);
      dialing := dialing && !e.HandshakeDone? && !e.DialFailed?;
      reading := if e.HandshakeDone? || e.BytesRead? then !latest.closed else reading && !e.ReadFailed?;
      now := st.now;
    }

    /** One event: the objects do what the step of the state machine says. */
    method Take(st: Step)
      requires Valid() && Enabled(View(), st) && WorldFits(client.config, View())
      modifies this, client, client.limiter, latest
      modifies if latest == null then {} else {latest.protocol, latest.automation, latest.assembler}
      ensures Valid() && View() == Next(client.config, old(View()), st)
    {
      hide Next;
      match st.event {
        case ReconnectTimerFired => FireReconnectTimer(st);
        case StopRequested => RequestStop(st);
        case Delivered(e) => RunHandler(e, st);
      }
    }
  }
}
