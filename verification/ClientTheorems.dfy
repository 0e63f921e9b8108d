/** The main results, for every run of the client from its start: any server, any
    network outcome, any number of reconnects. */
module ClientTheorems {
  import opened Basics
  import opened Framing
  import opened IrcMessages
  import opened RateLimits
  import opened RateWindows
  import opened Configuration
  import opened Protocol
  import opened Automation
  import opened Readiness
  import opened Scheduler
  import opened SchedulerInvariants
  import opened SchedulerTheorems
  import opened JoinBurst
  import opened Sessions
  import opened SessionInvariants
  import opened Clients
  import opened ClientRuns

  // ---------------------------------------------------------------------------
  // Rate limits
  // ---------------------------------------------------------------------------

  /** Window safety: choose for each completed write any instant between its start and its
      recorded completion. Every half-open 30 s window holds at most 20 chat instants and
      every half-open 10 s window at most 20 JOIN instants. */
  lemma WindowSafety(config: RuntimeConfig, begin: Time, steps: seq<Step>, w: World, xs: seq<Time>, a: Time)
    requires Reaches(config, begin, steps, w) && Chosen(LimitsOf(w).history, xs)
    ensures CountIn(InstantsOf(LimitsOf(w).history, xs, Kind.Chat), a, a + 30 * SECOND) <= 20
    ensures CountIn(InstantsOf(LimitsOf(w).history, xs, Kind.Join), a, a + 10 * SECOND) <= 20
  {
    hide Reaches, Disciplined, Suffix, LastPerChannel, Chosen, CountIn, InstantsOf;
    RunLimits(config, begin, steps, w);
    DisciplinedWindows(LimitsOf(w).history, w.now, xs, a);
  }

  /** Chat instants on one channel are at least a second apart. */
  lemma ChannelSafety(config: RuntimeConfig, begin: Time, steps: seq<Step>, w: World, xs: seq<Time>,
                      channel: string, i: nat, j: nat)
    requires Reaches(config, begin, steps, w) && Chosen(LimitsOf(w).history, xs)
    requires i < j < |InstantsOn(LimitsOf(w).history, xs, channel)|
    ensures InstantsOn(LimitsOf(w).history, xs, channel)[i] + SECOND
            <= InstantsOn(LimitsOf(w).history, xs, channel)[j]
  {
    hide Reaches, Disciplined, Suffix, LastPerChannel, Chosen, InstantsOn;
    RunLimits(config, begin, steps, w);
    DisciplinedGaps(LimitsOf(w).history, w.now, xs, channel, i, j);
  }

  /** Exactness in every reachable state: no deque exceeds 20 entries, and the limiter's
      answer is the least instant from now on that the complete history permits. */
  lemma LimiterExact(config: RuntimeConfig, begin: Time, steps: seq<Step>, w: World, kind: Kind, channel: string, t: Time)
    requires Reaches(config, begin, steps, w) && w.now <= t
    ensures |LimitsOf(w).globalChat| <= 20 && |LimitsOf(w).joins| <= 20
    ensures w.now <= Allowed(LimitsOf(w), kind, channel, w.now)
    ensures Permits(LimitsOf(w).history, kind, channel, t) <==> Allowed(LimitsOf(w), kind, channel, w.now) <= t
  {
    hide Reaches, Disciplined, Permits, Allowed, LastPerChannel, Ordered;
    RunLimits(config, begin, steps, w);
    AllowedIsLeast(LimitsOf(w), kind, channel, w.now, t);
  }

  /** The same with the documented numbers, in every reachable state and for every instant t
      from now on: a chat message may start at t if and only if fewer than 20 chat records
      lie in the 30 s up to t and none of its channel in the last second; a JOIN if and only
      if fewer than 20 JOIN records lie in the 10 s up to t. */
  lemma LimiterInNumbers(config: RuntimeConfig, begin: Time, steps: seq<Step>, w: World, channel: string, t: Time)
    requires Reaches(config, begin, steps, w) && w.now <= t
    ensures var l := LimitsOf(w);
            && (Allowed(l, Chat, channel, w.now) <= t <==>
                  && |Recent(l.history, Chat, t - 30 * SECOND)| < 20
                  && forall i | 0 <= i < |l.history| && l.history[i].kind.Chat? && l.history[i].channel == channel ::
                       l.history[i].at <= t - SECOND)
            && (Allowed(l, Join, channel, w.now) <= t <==> |Recent(l.history, Join, t - 10 * SECOND)| < 20)
  {
    hide Reaches, Faithful, Disciplined, Allowed, Recent;
    RunLimits(config, begin, steps, w);
    AnswerInNumbers(LimitsOf(w), channel, w.now, t);
  }

  /** The history is complete: no step forgets a record, across reconnects too, and a
      completed write is recorded with its start and its completion. */
  lemma HistoryIsComplete(config: RuntimeConfig, begin: Time, steps: seq<Step>, w: World, st: Step)
    requires Reaches(config, begin, steps, w) && Enabled(w, st) && WorldFits(config, w)
    ensures LimitsOf(w).history <= LimitsOf(Next(config, w, st)).history
    ensures st.event == Delivered(WriteDone) ==>
              var o := w.session.value.out;
              LimitsOf(Next(config, w, st)).history
              == LimitsOf(w).history
                 + [Sent(o.currentWrite.value.kind, o.currentWrite.value.channel, o.ledger.startedAt, st.now)]
  {
    hide Reaches, Progress, OnRead, OnHandshake, OnWriteDone, OnWriteFailed, ScheduleWrite, React, Enqueue;
    if st.event.Delivered? {
      var s := w.session.value;
      CallbackProgress(config, s, st.event.e, st.now);
      KeepsHistory(s.out, Callback(config, s, st.event.e, st.now).out);
      if st.event.e.WriteDone? {
        DoneProgress(s.out, st.now);
      }
    }
  }

  lemma KeepsHistory(o: Outbox, o': Outbox)
    requires Progress(o, o')
    ensures o.limits.history <= o'.limits.history
  {
  }

  // ---------------------------------------------------------------------------
  // The queue
  // ---------------------------------------------------------------------------

  /** No lost wake-up: an open session with waiting messages has a write in flight, or its
      timer is armed for exactly the first instant at which one of them is sendable. */
  lemma NoLostWakeUp(config: RuntimeConfig, begin: Time, steps: seq<Step>, w: World)
    requires Reaches(config, begin, steps, w) && w.session.Some?
    ensures var o := w.session.value.out;
            !o.closed && o.outbound != [] && !o.ledger.ioPending ==>
              && o.writeTimer.Some?
              && (forall i, t | 0 <= i < |o.outbound| && w.now <= t && Sendable(o.limits.history, o.outbound[i], t) ::
                    o.writeTimer.value <= t)
              && (exists i :: 0 <= i < |o.outbound| &&
                    SendableFrom(o.limits.history, o.outbound[i], Max(w.now, o.writeTimer.value)))
  {
    hide Reaches, Core, Sendable, SendableFrom;
    RunOut(config, begin, steps, w);
    CoreModes(w.session.value.out, w.now);
  }

  /** Conservation: each message offered to a session is in exactly one place. */
  lemma Conservation(config: RuntimeConfig, begin: Time, steps: seq<Step>, w: World, m: Outbound)
    requires Reaches(config, begin, steps, w) && w.session.Some?
    ensures var o := w.session.value.out;
            && Places(o, m) == (if m in o.ledger.offered then 1 else 0)
            && |o.outbound| <= 1_000
            && (m in o.ledger.dropped ==> m.kind.Chat?)
            && (m in o.ledger.refused ==> o.closed && !m.kind.Chat?)
  {
    hide Reaches, Inv, Places;
    RunOut(config, begin, steps, w);
    ExactlyOnePlace(w.session.value.out, w.now, m);
  }

  /** The wire starts with PASS, NICK and CAP REQ, system messages leave in the order in
      which they were offered, and nothing overtakes a message that keeps its place. */
  lemma WireOrderOfSession(config: RuntimeConfig, begin: Time, steps: seq<Step>, w: World)
    requires Reaches(config, begin, steps, w) && w.session.Some?
    ensures var o := w.session.value.out;
            && (forall i | 0 <= i < 3 && i < |Started(o)| :: Started(o)[i].wireData == Hello(config)[i])
            && SystemOf(Started(o)) <= SystemOf(o.ledger.offered)
            && WireOrder(Started(o))
            && NotOvertaken(o.outbound, Started(o))
  {
    hide Reaches, Inv, Started, SystemOf, WireOrder, NotOvertaken, SystemFifo, Balanced, Numbered, Modes, Faithful, Hello;
    var s := w.session.value;
    RunOut(config, begin, steps, w);
    SystemMessagesInOrder(s.out, w.now);
    InvOrder(s.out, w.now);
    OffersLead(config, begin, steps, w);
    forall i | 0 <= i < 3 && i < |Started(s.out)|
      ensures Started(s.out)[i].wireData == Hello(config)[i]
    {
      StartedWasOffered(s.out, w.now, i);
      LeadersGoFirst(s.out, w.now, 3, i);
    }
  }

  lemma OffersLead(config: RuntimeConfig, begin: Time, steps: seq<Step>, w: World)
    requires Reaches(config, begin, steps, w) && w.session.Some?
    ensures |Hello(config)| == 3
    ensures w.session.value.out.ledger.offered == [] || Leads(Hello(config), w.session.value.out.ledger.offered)
  {
    hide Reaches, Inv, Gated, EngineReady, Buffered, OneAtATime, Reported, Leads;
    RunKeeps(config, begin, steps, w);
    HelloShape(config, w.session.value.negotiation);
  }

  // ---------------------------------------------------------------------------
  // Lifecycle
  // ---------------------------------------------------------------------------

  /** Unless it is stopping, the client has exactly one open session or armed reconnect,
      never both; a stopping client has neither. Each session has reported its end at most
      once, namely when it is closed; the exit code is 1 exactly after a fatal end. */
  lemma Lifecycle(config: RuntimeConfig, begin: Time, steps: seq<Step>, w: World)
    requires Reaches(config, begin, steps, w)
    ensures var open := if w.session.Some? && !w.session.value.out.closed then 1 else 0;
            var armed := if w.client.reconnectTimer.Some? then 1 else 0;
            open + armed == if w.client.stopping then 0 else 1
    ensures w.session.Some? ==>
              var o := w.session.value.out;
              && |o.ledger.ended| == (if o.closed then 1 else 0)
              && (o.ledger.ended == [Fatal] ==> w.client.stopping)
              && (w.client.exitCode == if o.ledger.ended == [Fatal] then 1 else 0)
  {
    hide Reaches, Running, Dialing, Inv;
    RunKeeps(config, begin, steps, w);
    if w.session.Some? {
      RunningInv(config, w.session.value, w.now);
      InvEnds(w.session.value.out, w.now);
    }
  }

  /** A fatal end or a stop is final: no later connection, whatever happens. */
  lemma {:induction false} StoppingIsFinal(config: RuntimeConfig, begin: Time, steps: seq<Step>, w: World,
                                           more: seq<Step>, w': World)
    requires Reaches(config, begin, steps, w) && w.client.stopping
    requires Reaches(config, begin, steps + more, w')
    ensures w'.client.stopping && w'.connections == w.connections && w'.client.exitCode == w.client.exitCode
    decreases |more|
  {
    hide Validated, Next, Enabled, WorldFits, WorldInv;
    if more == [] {
      assert steps + more == steps;
    } else {
      var n := |more| - 1;
      var all := steps + more;
      assert all[..|all| - 1] == steps + more[..n] && all[|all| - 1] == more[n];
      var mid := After(config, begin, all[..|all| - 1]).value;
      StoppingIsFinal(config, begin, steps, w, more[..n], mid);
      RunKeeps(config, begin, steps + more[..n], mid);
      StoppedStep(config, mid, more[n]);
    }
  }

  lemma StoppedStep(config: RuntimeConfig, w: World, st: Step)
    requires WorldInv(config, w) && w.client.stopping && Enabled(w, st) && WorldFits(config, w)
    ensures var w' := Next(config, w, st);
            w'.client.stopping && w'.connections == w.connections && w'.client.exitCode == w.client.exitCode
  {
    hide Running, Dialing, Inv, OnRead, OnHandshake, OnAuthTimeout, OnWriteDone, OnWriteFailed, OnTimer, ScheduleWrite, Close,
      WithOut, React, Enqueue;
    forall s: Session, s': Session
      ensures React(w.client, s, s', st.jitter, st.now).stopping
      ensures React(w.client, s, s', st.jitter, st.now).exitCode == w.client.exitCode
    {
      ReactStopped(w.client, s, s', st.jitter, st.now);
    }
  }

  lemma ReactStopped(c: Client, s: Session, s': Session, jitter: nat, now: Time)
    requires c.stopping
    ensures React(c, s, s', jitter, now).stopping && React(c, s, s', jitter, now).exitCode == c.exitCode
  {
  }

  /** JOIN and chat lines are enqueued only after readiness was reached in that session. */
  lemma GatedByReadiness(config: RuntimeConfig, begin: Time, steps: seq<Step>, w: World, i: nat)
    requires Reaches(config, begin, steps, w) && w.session.Some?
    requires i < |w.session.value.out.ledger.offered| && !w.session.value.out.ledger.offered[i].kind.System?
    ensures w.session.value.readyCalls > 0
  {
    hide Reaches, Inv, EngineReady, Buffered, OneAtATime, Reported, Greeted;
    RunKeeps(config, begin, steps, w);
  }

  /** An open session that completed the handshake has its 20 s authentication deadline
      armed exactly as long as it never became ready. */
  lemma AuthenticationDeadline(config: RuntimeConfig, begin: Time, steps: seq<Step>, w: World)
    requires Reaches(config, begin, steps, w) && w.session.Some? && !w.dialing && !w.session.value.out.closed
    ensures w.session.value.authTimer.Some? <==> w.session.value.readyCalls == 0
  {
    hide Reaches, Inv, EngineReady, OneAtATime, Reported, Greeted, Gated, Buffered;
    RunKeeps(config, begin, steps, w);
  }

  /** The authentication timer was at most cancelled, and that if the session has closed. */
  ghost predicate TimerKept(s: Session, s': Session) {
    && (s'.authTimer == None || s'.authTimer == s.authTimer)
    && (s.out.closed ==> s'.out.closed)
    && (!s.out.closed && s'.out.closed ==> s'.authTimer == None)
  }

  lemma {:induction false} ActionsKeepTimer(s: Session, actions: seq<Action>, now: Time)
    ensures TimerKept(s, ApplyActions(s, actions, now))
    decreases |actions|
  {
    hide Offer, Progress;
    if actions != [] {
      var s' := ApplyAction(s, actions[0], now);
      ApplyProgress(s, actions[0], now);
      ProgressCloses(s.out, s'.out);
      if !s'.out.closed {
        ActionsKeepTimer(s', actions[1..], now);
      }
    }
  }

  lemma {:induction false} ChatsKeepTimer(s: Session, chats: seq<Scheduled>, now: Time)
    ensures TimerKept(s, SendChats(s, chats, now))
    decreases |chats|
  {
    hide Offer, MakePrivmsg, Progress;
    if chats != [] {
      var line := MakePrivmsg(chats[0].channel, chats[0].text);
      var s' := if line.Thrown? then s else SendLine(s, line.value, Chat, chats[0].channel, chats[0].due, now);
      if line.Ok? {
        OfferProgress(s.out, line.value, Chat, chats[0].channel, chats[0].due, now);
        ProgressCloses(s.out, s'.out);
      }
      ChatsKeepTimer(s', chats[1..], now);
    }
  }

  lemma LineKeepsTimer(config: RuntimeConfig, s: Session, line: string, now: Time)
    requires Fits(config, s)
    ensures TimerKept(s, HandleLine(config, s, line, now).0)
  {
    hide ParseLine, AfterHandle, AfterEvent, ApplyActions, SendChats;
    if ParseLine(line).Some? {
      var m := ParseLine(line).value;
      var (negotiation, actions) := AfterHandle(config, s.negotiation, m);
      var s1 := s.(negotiation := negotiation);
      if actions.Ok? {
        var s2 := ApplyActions(s1, actions.value, now);
        ActionsKeepTimer(s1, actions.value, now);
        ApplyKeepsFields(s1, actions.value, now);
        var (engine, chats) := AfterEvent(config.bot, s2.engine, m, now);
        if chats.Ok? {
          ChatsKeepTimer(s2.(engine := engine), chats.value, now);
        }
      }
    }
  }

  lemma {:induction false} LinesKeepTimer(config: RuntimeConfig, s: Session, lines: seq<string>, now: Time)
    requires Fits(config, s)
    ensures TimerKept(s, HandleLines(config, s, lines, now).0)
    decreases |lines|
  {
    hide HandleLine;
    if lines != [] {
      var (s', ok) := HandleLine(config, s, lines[0], now);
      LineKeepsTimer(config, s, lines[0], now);
      HandleLineFits(config, s, lines[0], now);
      if ok && !s'.out.closed {
        LinesKeepTimer(config, s', lines[1..], now);
      }
    }
  }

  /** Only the handshake arms the authentication timer, 20 s from then. */
  lemma CallbackTimer(config: RuntimeConfig, s: Session, e: SessionEvent, now: Time)
    requires Fits(config, s) && (e.WriteDone? ==> s.out.currentWrite.Some?)
    ensures var s' := Callback(config, s, e, now);
            if e.HandshakeDone? then s'.authTimer == s.authTimer || s'.authTimer == Some(now + 20 * SECOND)
            else TimerKept(s, s')
  {
    hide Offer, ScheduleWrite, OnTimer, OnWriteDone, OnWriteFailed, AfterBegin, ApplyAll, HandleLines, Pushed, Progress;
    CallbackProgress(config, s, e, now);
    ProgressCloses(s.out, Callback(config, s, e, now).out);
    if e.BytesRead? {
      var (buffer, lines) := Pushed(s.buffer, e.bytes);
      if lines.Ok? {
        LinesKeepTimer(config, s.(buffer := buffer), lines.value, now);
      }
    }
  }

  lemma StepTimer(config: RuntimeConfig, w: World, st: Step, at: Time)
    requires WorldInv(config, w) && Enabled(w, st) && WorldFits(config, w)
    requires w.session.Some? && w.session.value.authTimer.Some? ==> w.session.value.authTimer.value == at + 20 * SECOND
    ensures var s' := Next(config, w, st).session;
            s'.Some? && s'.value.authTimer.Some? ==>
              s'.value.authTimer.value
              == (if st.event == Delivered(HandshakeDone) then st.now else at) + 20 * SECOND
  {
    hide Inv, Running, Callback, React, OneAtATime, Reported;
    match st.event {
      case Delivered(e) =>
        CallbackTimer(config, w.session.value, e, st.now);
      case _ =>
    }
  }

  /** Ending a session cancels both its timers. */
  lemma EndingCancelsTimers(config: RuntimeConfig, begin: Time, steps: seq<Step>, w: World, st: Step)
    requires Reaches(config, begin, steps, w) && Enabled(w, st) && WorldFits(config, w)
    requires w.session.Some? && !w.session.value.out.closed
    ensures var s' := Next(config, w, st).session;
            s'.Some? && (s'.value.out.closed ==> s'.value.authTimer == None && s'.value.out.writeTimer == None)
  {
    hide After, Validated, Running, Dialing, Inv, Callback, React;
    var s := w.session.value;
    RunKeeps(config, begin, steps, w);
    NextKeeps(config, w, st);
    var w' := Next(config, w, st);
    assert w'.session.Some?;
    RunningInv(config, w'.session.value, st.now);
    ClosedIsUntimed(w'.session.value.out, st.now);
    if st.event.Delivered? {
      CallbackTimer(config, s, st.event.e, st.now);
      if st.event.e.HandshakeDone? {
        SessionLater(config, s, w.now, st.now);
        HandshakeKeeps(config, s, st.now);
        HandshakeIsCallback(config, s, st.now);
      }
    }
  }

  lemma HandshakeIsCallback(config: RuntimeConfig, s: Session, now: Time)
    requires Fits(config, s)
    ensures Callback(config, s, HandshakeDone, now) == OnHandshake(config, s, now)
  {
  }

  lemma ClosedIsUntimed(o: Outbox, now: Time)
    requires Inv(o, now)
    ensures o.closed ==> o.writeTimer == None
  {
    hide Order, Balanced, Numbered, SystemFifo, Paced, Armed;
  }

  /** The deadline is 20 s after the handshake. */
  lemma {:induction false} DeadlineAfterHandshake(config: RuntimeConfig, begin: Time, steps: seq<Step>, w: World)
    requires Reaches(config, begin, steps, w) && w.session.Some? && w.session.value.authTimer.Some?
    ensures w.session.value.authTimer.value == HandshakeAt(steps) + 20 * SECOND
  {
    hide Validated, Next, Enabled, WorldInv;
    if steps != [] {
      var n := |steps| - 1;
      var before := After(config, begin, steps[..n]).value;
      RunKeeps(config, begin, steps[..n], before);
      if before.session.Some? && before.session.value.authTimer.Some? {
        DeadlineAfterHandshake(config, begin, steps[..n], before);
      }
      StepTimer(config, before, steps[n], HandshakeAt(steps[..n]));
    }
  }

  /** A system message that waits in an open session waits only for a write in flight. */
  lemma SystemMessagesNeverDelayed(config: RuntimeConfig, begin: Time, steps: seq<Step>, w: World, i: nat)
    requires Reaches(config, begin, steps, w) && w.session.Some? && !w.session.value.out.closed
    requires i < |w.session.value.out.outbound| && w.session.value.out.outbound[i].kind.System?
    ensures w.session.value.out.ledger.ioPending
  {
    hide Reaches, Inv;
    RunOut(config, begin, steps, w);
    SystemNeverDelayed(w.session.value.out, w.now, i);
  }

  /** A read into an open session never meets the limit on the whole buffer. */
  lemma BufferBound(config: RuntimeConfig, begin: Time, steps: seq<Step>, w: World, bytes: string)
    requires Reaches(config, begin, steps, w) && w.session.Some? && !w.session.value.out.closed
    requires |bytes| <= READ_BUFFER_BYTES
    ensures |w.session.value.buffer| <= MAX_LINE_BYTES && CrlfFree(w.session.value.buffer)
    ensures |w.session.value.buffer| + |bytes| <= MAX_BUFFER_BYTES
  {
    hide Reaches, Inv, EngineReady, OneAtATime, Reported, Greeted, Gated;
    RunKeeps(config, begin, steps, w);
  }

  lemma OneMore(config: RuntimeConfig, begin: Time, steps: seq<Step>, w: World, st: Step)
    requires After(config, begin, steps) == Some(w) && Enabled(w, st) && WorldFits(config, w)
    ensures After(config, begin, steps + [st]) == Some(Next(config, w, st))
  {
    hide Enabled, WorldFits, Next;
    assert (steps + [st])[..|steps|] == steps;
  }

  /** A connection, its handshake and a stop, at one instant. */
  function StopAfterHandshake(now: Time): seq<Step> {
    [Step(ReconnectTimerFired, now, 0), Step(Delivered(HandshakeDone), now, 0), Step(StopRequested, now, 0)]
  }

  lemma Greets(config: RuntimeConfig, begin: Time) returns (w: World)
    requires Validated(config)
    ensures After(config, begin, StopAfterHandshake(begin)[..2]) == Some(w) && WorldInv(config, w)
    ensures w.session.Some? && w.client.connected && !w.client.stopping && w.reading && w.now == begin
    ensures w.session.value.buffer == ""
  {
    hide Validated, OnHandshake, Inv, Running, Dialing, React;
    var steps := StopAfterHandshake(begin);
    assert steps[..1] == [steps[0]] && steps[..2] == [steps[0]] + [steps[1]] && [] + [steps[0]] == steps[..1];
    var w0 := Begin(begin);
    OneMore(config, begin, [], w0, steps[0]);
    var w1 := Next(config, w0, steps[0]);
    NextKeeps(config, w0, steps[0]);
    InvFits(config, w1);
    var s := w1.session.value;
    OneMore(config, begin, steps[..1], w1, steps[1]);
    w := Next(config, w1, steps[1]);
    NextKeeps(config, w1, steps[1]);
    HandshakeKeeps(config, s, begin);
  }

  /** A run that handles a line after closing: the client is stopped while a read that has
      completed waits for its handler. */
  lemma LateReadHappens(config: RuntimeConfig, begin: Time)
    requires Validated(config)
    ensures var ping := "PING :x\r\n";
            var late := Step(Delivered(BytesRead(ping)), begin, 0);
            && After(config, begin, StopAfterHandshake(begin)).Some?
            && var w := After(config, begin, StopAfterHandshake(begin)).value;
               && w.session.Some? && w.session.value.out.closed && Enabled(w, late) && WorldFits(config, w)
               && HandlesAfterClosing(config, w.session.value, ping, begin)
               && Next(config, w, late).session.value.out.nextSequence == w.session.value.out.nextSequence + 1
  {
    hide Validated, OnRead, HandlesAfterClosing, Inv, Running, Dialing, React;
    var steps := StopAfterHandshake(begin);
    var w := Greets(config, begin);
    InvFits(config, w);
    assert steps[..2] + [steps[2]] == steps;
    OneMore(config, begin, steps[..2], w, steps[2]);
    var w' := Next(config, w, steps[2]);
    NextKeeps(config, w, steps[2]);
    InvFits(config, w');
    LateReadHandlesLine(config, w'.session.value, begin);
  }

  // ---------------------------------------------------------------------------
  // The ready batch is a burst
  // ---------------------------------------------------------------------------

  lemma {:induction false} ApplyOneMore(s: Session, actions: seq<Action>, a: Action, now: Time)
    requires !ApplyActions(s, actions, now).out.closed
    ensures ApplyActions(s, actions + [a], now) == ApplyAction(ApplyActions(s, actions, now), a, now)
    decreases |actions|
  {
    hide ApplyAction;
    if actions == [] {
      assert actions + [a] == [a];
      NoActions(ApplyAction(s, a, now), now);
      assert [a][1..] == actions;
    } else {
      assert (actions + [a])[1..] == actions[1..] + [a];
      ApplyOneMore(ApplyAction(s, actions[0], now), actions[1..], a, now);
    }
  }

  lemma NoActions(s: Session, now: Time)
    ensures ApplyActions(s, [], now) == s
  {
  }

  lemma {:induction false} BatchIsBurst(s: Session, channels: seq<string>, now: Time)
    requires ValidNames(channels) && Idle(s.out, now) && |channels| <= MAX_OUTBOUND_QUEUE
    ensures JoinActions(channels).Ok?
    ensures var s' := ApplyActions(s, [BecameReady] + JoinActions(channels).value, now);
            s'.out == OfferJoins(s.out, channels, now) && !s'.out.closed
  {
    hide Inv, ValidLogin, Offer;
    ValidNamesJoin(channels);
    if channels == [] {
      assert [BecameReady] + JoinActions(channels).value == [BecameReady];
      assert |[BecameReady][1..]| == 0;
    } else {
      var n := |channels| - 1;
      BatchIsBurst(s, channels[..n], now);
      JoinFits(channels[n]);
      var before := [BecameReady] + JoinActions(channels[..n]).value;
      var a := JoinActions(channels).value[n];
      assert [BecameReady] + JoinActions(channels).value == before + [a];
      ApplyOneMore(s, before, a, now);
      OfferJoinsSends(s.out, channels, now);
    }
  }

  /** When a session becomes ready while idle and every earlier JOIN has left its window, and
      writes are instantaneous, the k-th configured channel is joined exactly 10 s * floor(k / 20)
      after readiness. */
  lemma JoinsAfterReady(config: RuntimeConfig, s: Session, now: Time, n: nat)
    requires Validated(config) && Idle(s.out, now) && 2 * |config.channels| <= n
    ensures JoinActions(config.channels).Ok?
    ensures var s' := ApplyActions(s, [BecameReady] + JoinActions(config.channels).value, now);
            Rounds(s'.out, now, n).0.limits.history
            == s.out.limits.history + Records(config.channels, now, |config.channels|)
  {
    hide Idle, ValidSettings, ValidToken, ValidNames, Rounds, OfferJoins, ApplyActions, Records;
    BatchIsBurst(s, config.channels, now);
    BurstPace(s.out, config.channels, now, n);
  }
}
