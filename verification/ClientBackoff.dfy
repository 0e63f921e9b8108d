/** The reconnect waits over a whole run, told from what the sessions report alone. */
module ClientBackoff {
  import opened Basics
  import opened RateLimits
  import opened Configuration
  import opened Scheduler
  import opened SchedulerInvariants
  import opened Sessions
  import opened SessionInvariants
  import opened Clients
  import opened ClientRuns

  /** `ends` counts the sessions that ended for a reason other than a stop or a fatal one
      since the last call of the ready handler; `last` is the instant of the latest such
      end, with the count before it and the jitter drawn then. */
  datatype Tally = Tally(ends: nat, last: Option<(Time, nat, nat)>)

  /** The reason with which a step closed a session that had been open. */
  function EndOf(w: World, w': World): Option<EndReason> {
    if w.session.Some? && w'.session.Some? && !w.session.value.out.closed && w'.session.value.out.closed
       && w'.session.value.out.ledger.ended != []
    then Some(w'.session.value.out.ledger.ended[0])
    else None
  }

  predicate BecameReadyIn(w: World, w': World) {
    w.session.Some? && w'.session.Some? && w'.session.value.readyCalls > w.session.value.readyCalls
  }

  function Tallied(t: Tally, w: World, w': World, jitter: nat): Tally {
    var t := if BecameReadyIn(w, w') then t.(ends := 0) else t;
    var end := EndOf(w, w');
    if end == Some(NetworkError) || end == Some(EndReason.ReconnectRequested)
    then Tally(t.ends + 1, Some((w'.now, t.ends, jitter)))
    else t
  }

  function TallyOf(config: RuntimeConfig, begin: Time, steps: seq<Step>): Tally {
    if steps == [] then Tally(0, None)
    else
      var before := After(config, begin, steps[..|steps| - 1]);
      var after := After(config, begin, steps);
      var t := TallyOf(config, begin, steps[..|steps| - 1]);
      if before.Some? && after.Some? then Tallied(t, before.value, after.value, steps[|steps| - 1].jitter) else t
  }

  /** The armed reconnect is the first connection or waits for the latest end. */
  ghost predicate BacksOff(c: Client, begin: Time, t: Tally) {
    && c.reconnectAttempt == t.ends
    && (c.reconnectTimer.Some? ==>
          match t.last
          case None => c.reconnectTimer.value == begin
          case Some((at, k, jitter)) =>
            && c.reconnectTimer.value == at + Power2(Min(k, 6)) * SECOND + jitter * 1_000_000
            && jitter <= 500)
  }

  /** What the handlers of one callback do to the waits. */
  lemma ReactBacksOff(w: World, s': Session, st: Step, w': World, begin: Time, t: Tally)
    requires w.session.Some? && OneAtATime(w.client) && Reported(w.client, w.session.value)
    requires Inv(w.session.value.out, st.now) && Progress(w.session.value.out, s'.out) && st.jitter <= MAX_JITTER
    requires w'.session == Some(s') && w'.now == st.now
    requires w'.client == React(w.client, w.session.value, s', st.jitter, st.now)
    requires BacksOff(w.client, begin, t)
    ensures BacksOff(w'.client, begin, Tallied(t, w, w', st.jitter))
  {
    hide Power2, Inv;
    var s := w.session.value;
    InvEnds(s.out, st.now);
    if !s.out.closed && s'.out.closed {
      assert s'.out.ledger.ended == [s'.out.ledger.ended[0]];
    }
  }

  lemma StepBacksOff(config: RuntimeConfig, w: World, st: Step, begin: Time, t: Tally)
    requires Validated(config) && WorldInv(config, w) && Enabled(w, st) && WorldFits(config, w)
    requires BacksOff(w.client, begin, t)
    ensures BacksOff(Next(config, w, st).client, begin, Tallied(t, w, Next(config, w, st), st.jitter))
  {
    hide Validated, Inv, Running, Dialing, Callback, Power2, React, Progress;
    match st.event {
      case ReconnectTimerFired =>
      case StopRequested =>
        StopBacksOff(config, w, st, begin, t);
      case Delivered(e) =>
        var s := w.session.value;
        SessionLater(config, s, w.now, st.now);
        RunningInv(config, s, st.now);
        CallbackProgress(config, s, e, st.now);
        ReactBacksOff(w, Callback(config, s, e, st.now), st, Next(config, w, st), begin, t);
    }
  }

  lemma StopBacksOff(config: RuntimeConfig, w: World, st: Step, begin: Time, t: Tally)
    requires WorldInv(config, w) && Enabled(w, st) && WorldFits(config, w) && st.event.StopRequested?
    requires BacksOff(w.client, begin, t)
    ensures BacksOff(Next(config, w, st).client, begin, Tallied(t, w, Next(config, w, st), st.jitter))
  {
    hide Inv, Running, Dialing, Power2;
    if w.session.Some? {
      var s := w.session.value;
      RunningInv(config, s, w.now);
      InvEnds(s.out, w.now);
    }
  }

  /** In every run an armed reconnect is the first connection, due at once, or waits
      2^min(k, 6) seconds and its jitter, at most 500 ms, from the latest non-fatal end,
      where k such ends came before it since the last ready. */
  lemma {:induction false} ReconnectWait(config: RuntimeConfig, begin: Time, steps: seq<Step>, w: World, t: Tally)
    requires Reaches(config, begin, steps, w) && t == TallyOf(config, begin, steps)
    ensures BacksOff(w.client, begin, t)
  {
    hide Validated, Next, Enabled, WorldInv, WorldFits, Tallied, Power2;
    if steps != [] {
      var n := |steps| - 1;
      var before := After(config, begin, steps[..n]).value;
      var t0 := TallyOf(config, begin, steps[..n]);
      RunKeeps(config, begin, steps[..n], before);
      ReconnectWait(config, begin, steps[..n], before, t0);
      StepBacksOff(config, before, steps[n], begin, t0);
    }
  }
}
