# A verified model of the Twitch IRC bot

This project models the transport-independent heart of the bot and the scheduling
logic of its Boost client, and proves what they promise: rate limits over whole runs,
a queue that never loses a wake-up or a message, framing that does not depend on how
TCP cuts the stream, a parser that accepts exactly one grammar, exact readiness, exactly
what a session says in answer to what it hears and why it ends, and a client that never
has more than one session.

Verify it with `dafny verify dfyconfig.toml` (Dafny 4.11).

## How it is built

Code that works by changing things in place is modelled by classes with the same
fields: `RateLimiter`, `IrcStreamAssembler`, `SessionProtocol`, `AutomationEngine`,
`IrcSession` (the session of the Boost client) and `TwitchIrcClient`. Each of their
methods is proved equal to a function on a value (`View()` before and after), and the
properties are proved about these functions: for one call, for every sequence of
calls, and finally for every run of the whole client. A run is a sequence of events;
`EventLoops.EventLoop` holds the client and its latest session as objects, and its
`Take` is proved to do with them exactly what `ClientRuns.Next` says for each event.

| file | content |
|---|---|
| RateLimits.dfy, RateWindows.dfy | the limiter; the full send history it forgets; exactness; window safety of a history |
| Scheduler.dfy, SchedulerInvariants.dfy, SchedulerTheorems.dfy | the outbound queue, its invariant, and what the invariant means |
| JoinBurst.dfy | the pace of a burst of JOINs in closed form, and its optimality |
| Framing.dfy | the stream assembler and the one-shot split |
| IrcText.dfy, IrcMessages.dfy, IrcRoundTrip.dfy, IrcGrammar.dfy | the line parser, the encoder, printing and the round trips, the complete grammar |
| Configuration.dfy, Spelling.dfy | name normalisation, the validated configuration, the length budget; what is accepted, character by character |
| Protocol.dfy, Readiness.dfy, Verdicts.dfy, TwitchTexts.dfy | capability negotiation and exact readiness; what single messages do; Twitch's own lines |
| Automation.dfy, Cooldowns.dfy, Triggers.dfy | rule and hype responses, their cooldowns and rotation; which messages are answered |
| Sessions.dfy, SessionInvariants.dfy, IrcSessions.dfy | one session composed of the above, its invariant, the session object |
| SessionTraffic.dfy, SessionTalk.dfy, Screenplays.dfy, SessionEnds.dfy | what a session answers, everything it says, why it ends |
| Clients.dfy, ClientRuns.dfy, EventLoops.dfy | the client, the event machine with its runs, the objects under it |
| ClientTheorems.dfy, ClientTraffic.dfy, ClientTalk.dfy, ClientEnds.dfy, ClientBackoff.dfy | the main results over every run: limits, queue and lifecycle; answers to PINGs; everything that is said; why sessions end and what the client does; the reconnect waits |

The functions share constants and helper predicates with the code they specify. Results
that fix a number or a word therefore state it literally, or in terms that the code does
not use: `RateLimits.AnswerInNumbers`, `Spelling`, `IrcGrammar.AcceptedExactly`,
`Verdicts`, `Triggers`, `SessionEnds`, `ClientTalk.SaysExactly`.

Conventions. Time is an integer number of nanosecond ticks of a clock that never goes
back. A string stands for bytes, one character each. A C++ exception is the value
`Thrown`. `Ledger` and `history` record what the program does not keep (what was
offered, written, dropped, and every recorded write); no branch depends on them. Names
that a proof does not need are switched off inside it with `hide`, only to keep it cheap.

Events. Asio's callbacks become the events of `ClientRuns.Event` and
`Sessions.SessionEvent`; the network, the server, the clock and the reconnect jitter
(0 to 500 ms) are arbitrary. `Enabled` says when an event can happen. It contains one
assumption about the environment: the pending handlers of a closed session run before the
next session is made. The reconnect wait is at least one second
(`ClientBackoff.ReconnectWait`). Handlers of either timer that were queued before the timer
was cancelled may still run (`StaleWakeUp`, `StaleAuthTimer`), and so may reads, handshakes
and writes that completed before a close but are handled after it.

Where the code and expectations differ, the code was followed:

- A `CAP ACK` restarts negotiation from any state, so `failed` does not absorb in the
  protocol object (`Readiness.FailedIsNotAbsorbing`); `Readiness.ReadyExactly` gives the
  exact condition for every message sequence.
- A line of exactly 8192 bytes is accepted or rejected depending on where reads cut it
  (`Framing.FullLineDependsOnChunks`); `Framing.AcceptedUnderEveryChunking` gives the exact
  lengths for which no cut matters.
- A read that completed before the session closed still handles its first line:
  `ClientTheorems.LateReadHappens` gives the run, and `SessionInvariants.LateLineExactly`
  the exact condition (the session was closed before the read and the read completes a
  line). `SessionInvariants.ClosedReadIsSilent` shows that this is the most that happens and
  that it sends nothing.
- A backslash that ends a tag value is kept, whereas the IRCv3 Message Tags
  specification, section "Escaping values", drops it. `IrcRoundTrip.UnescapeDiffersExactly`:
  the two agree exactly on values that end in an even number of backslashes.
- The parameter limit counts middle parameters only, so a message can have 33 parameters
  (`IrcRoundTrip.CrowdedLines`). `IrcRoundTrip.ManyParametersExactly`: it has more than 32
  exactly when 32 are middle ones and there is a trailing one.

## Model

| member | source | states |
|---|---|---|
| RateLimits.RateLimiter.Prune | src/rate_limiter.cpp:8-12 | the loop drops exactly the leading entries at or before the cutoff |
| RateLimits.RateLimiter.NextAllowed | src/rate_limiter.cpp:14-33 | the answer and the pruning of one question, as functions of the state before; AllowedIsLeast says what the answer means |
| RateLimits.RateLimiter.Record | src/rate_limiter.cpp:35-43 | the recorded completion is added to the state of its kind and to the full history |
| RateLimits.AllowedIsLeast | src/rate_limiter.cpp:14-33 | the pruned state answers with the least instant, not before now, at which the complete history permits the write; it stays permitted from then on |
| RateLimits.AnswerInNumbers | src/rate_limiter.cpp:14-33 | chat may start at t if and only if fewer than 20 chat records lie in the 30 s up to t and none of its channel in the last second; a JOIN if and only if fewer than 20 JOIN records lie in the 10 s up to t; other messages at once |
| RateLimits.AskKeepsAnswers | src/rate_limiter.cpp:8-33 | the pruning done by one question changes no answer at the same instant |
| RateLimits.AskKeepsFaithful | src/rate_limiter.cpp:8-33 | pruning loses only entries that have left the window |
| RateLimits.AllowedSoon | src/rate_limiter.cpp:20-32 | the limiter never asks to wait longer than 30 s (10 s for JOIN) |
| RateWindows.RecordKeepsFaithful | src/rate_limiter.cpp:35-43 | recording a write that was permitted at its start keeps the deques at most 20 long and equal to the end of the history |
| RateWindows.RecordKeepsDiscipline | src/rate_limiter.cpp:35-43 | if permission was given at the start, then each write starts a full window after the 20th before it (a second after the previous one on its channel) was completed |
| RateWindows.DisciplinedWindows | docs/ARCHITECTURE.md:54-56 | any choice of instants between start and completion puts at most 20 chat instants into a half-open 30 s window and 20 JOIN instants into 10 s |
| RateWindows.DisciplinedGaps | docs/ARCHITECTURE.md:54-56 | chosen chat instants on one channel are at least one second apart |
| IrcSessions.IrcSession.Select | src/twitch_irc_client.cpp:229-242 | the scan returns the position and time of the queue's lexicographic minimum of (max(due, allowed), sequence), asking the limiter about every message |
| IrcSessions.IrcSession.ScheduleWrite | src/twitch_irc_client.cpp:225-256 | the whole new state: nothing, an armed timer, or a started write of the selected message |
| IrcSessions.IrcSession.Enqueue | src/twitch_irc_client.cpp:209-223 | the whole new state, with the full-queue cases for chat and protocol messages |
| IrcSessions.IrcSession.Send | src/twitch_irc_client.cpp:188-193 | messages are stamped with consecutive sequence numbers before they are enqueued |
| IrcSessions.IrcSession.OnWriteDone | src/twitch_irc_client.cpp:258-271 | completion is recorded for the written message, then the queue is scheduled again |
| IrcSessions.IrcSession.OnWriteFailed | src/twitch_irc_client.cpp:258-264 | a failed write closes the session and records nothing |
| IrcSessions.IrcSession.OnTimer | src/twitch_irc_client.cpp:244-250 | the timer's handler schedules the queue |
| IrcSessions.IrcSession.Finish | src/twitch_irc_client.cpp:274-290 | closing cancels both timers and calls the end handler, once |
| IrcSessions.IrcSession.Stop | src/twitch_irc_client.cpp:72 | a stop closes with the reason reserved for it |
| IrcSessions.IrcSession.Apply | src/twitch_irc_client.cpp:188-207 | the four protocol actions |
| IrcSessions.IrcSession.SendAll | src/twitch_irc_client.cpp:178-185 | automated messages are enqueued in order; one that cannot be encoded is skipped |
| IrcSessions.IrcSession.HandleLine | src/twitch_irc_client.cpp:159-186 | parse, protocol, stop when closed, then automation only when ready; the flag tells whether an exception leaves the call |
| IrcSessions.IrcSession.OnRead | src/twitch_irc_client.cpp:134-157 | the lines of one read in order, until closed; an exception closes the session |
| IrcSessions.IrcSession.OnReadFailed | src/twitch_irc_client.cpp:136-141 | a failed read closes the session as a network error |
| IrcSessions.IrcSession.OnHandshake | src/twitch_irc_client.cpp:102-115 | the greeting is enqueued and the authentication timer armed |
| IrcSessions.IrcSession.OnAuthTimeout | src/twitch_irc_client.cpp:118-127 | the deadline ends the session fatally unless it is ready |
| IrcSessions.IrcSession.Callback | src/twitch_irc_client.cpp:72-290 | each event runs the matching handler, which changes the session as its function says |
| IrcSessions.IrcSession.constructor | src/twitch_irc_client.cpp:52-56 | a new session has fresh protocol, automation and buffer but the client's limiter |
| SchedulerInvariants.ScheduleKeeps | src/twitch_irc_client.cpp:225-256 | from any state that keeps the books, schedule_write re-establishes the whole invariant, wake-up included |
| SchedulerInvariants.OfferKeeps | src/twitch_irc_client.cpp:209-223 | enqueueing keeps conservation, order, pacing and wake-up, at any instants |
| SchedulerInvariants.WriteDoneKeeps | src/twitch_irc_client.cpp:258-271 | so does a completed write, which adds one permitted record to the history |
| SchedulerInvariants.WriteFailedKeeps | src/twitch_irc_client.cpp:258-264 | so does a failed write |
| SchedulerInvariants.TimerKeeps | src/twitch_irc_client.cpp:244-250 | so does the timer |
| SchedulerInvariants.FinishKeeps | src/twitch_irc_client.cpp:274-290 | so does closing |
| SchedulerInvariants.StaleWakeKeeps | src/twitch_irc_client.cpp:246-250 | so does a wake-up whose timer was cancelled too late |
| SchedulerTheorems.ExactlyOnePlace | src/twitch_irc_client.cpp:209-271 | each offered message is in exactly one place: queued, in flight, written, dropped as chat, or the protocol message that closed the session |
| SchedulerTheorems.OfferOutcome | src/twitch_irc_client.cpp:209-223 | a message is dropped, or closes the session, exactly when 1000 messages are waiting; otherwise it waits or is being written |
| SchedulerTheorems.SystemMessagesInOrder | src/twitch_irc_client.cpp:229-242 | the system messages written so far are a prefix of those offered, in order |
| SchedulerTheorems.NoOvertaking | src/twitch_irc_client.cpp:229-242 | no write overtakes an earlier system message, nor an earlier message of its kind and channel that is due no later |
| SchedulerTheorems.LeadersGoFirst | src/twitch_irc_client.cpp:229-242 | system messages offered before anything else are the first on the wire, in their order |
| SchedulerTheorems.SystemNeverDelayed | src/rate_limiter.cpp:17-19 | a waiting system message only ever waits for a write in flight |
| SchedulerTheorems.ChatFairness | src/twitch_irc_client.cpp:229-242 | a chat message past its due time and its channel's second is never passed over for a chat message with a larger number |
| SchedulerTheorems.FairStart | src/twitch_irc_client.cpp:229-256 | the same for the write that schedule_write starts |
| SchedulerTheorems.WakeStartsWrite | src/twitch_irc_client.cpp:243-256 | with nothing recorded meanwhile, a wake starts a write if and only if the deadline has come |
| SchedulerTheorems.DeadlineIsSoon | src/twitch_irc_client.cpp:243-244 | the deadline is at most any waiting message's due time or 30 s from now, whichever is later |
| SchedulerTheorems.Drains | src/twitch_irc_client.cpp:225-271 | without input and with instantaneous writes the queue empties: everything waiting is written, nothing is dropped |
| JoinBurst.BurstPace | src/twitch_irc_client.cpp:225-271 | from an idle session whose earlier JOINs have all left the window, the k-th of a burst of JOINs is written exactly 10 s * floor(k / 20) after its begin, in queue order |
| JoinBurst.QuietMeansEmpty | src/rate_limiter.cpp:8-23 | all earlier JOINs have left the window if and only if the limiter's next question empties its JOIN deque |
| JoinBurst.BurstIsOptimal | src/rate_limiter.cpp:20-23 | no schedule that respects the JOIN limit is earlier at any position |
| JoinBurst.SlotsWithinLimit | src/rate_limiter.cpp:20-23 | that pace respects the limit itself, so the bound is attained |
| Framing.IrcStreamAssembler.Push | src/irc.cpp:201-222 | the buffer and the lines (or the throw) of one push, as the loop leaves them |
| Framing.CutIsSplit | src/irc.cpp:206-221 | the loop succeeds if and only if every line and the tail have at most 8192 bytes, and then it is the one-shot split |
| Framing.PushExactly | src/irc.cpp:201-222 | a push succeeds if and only if at most 65536 bytes are buffered and no line and no tail has more than 8192, and then it is the one-shot split |
| Framing.JoinInvertsSplit | src/irc.cpp:206-221 | re-joining the lines with CRLF plus the tail gives back the bytes; lines and tail are CRLF-free |
| Framing.SplitInvertsJoin | src/irc.cpp:206-221 | that decomposition is the only one |
| Framing.FeedIsSplit | src/irc.cpp:201-222 | fragmentation independence: whenever all pushes succeed, lines and buffer are the one-shot split of the whole stream |
| Framing.FeedBounds | src/irc.cpp:208-217 | after every successful push the tail is CRLF-free and at most 8192 bytes, all lines are at most 8192 bytes, and another 4096-byte read fits |
| Framing.FeedSucceeds | src/irc.cpp:201-222 | chunks of at most 4096 bytes are all accepted if and only if all lines and all tails at chunk ends are at most 8192 bytes |
| Framing.AcceptedUnderEveryChunking | src/irc.cpp:208-217 | every chunking into reads is accepted if and only if the lines have at most 8191 bytes and the tail at most 8192 |
| Framing.FullLineDependsOnChunks | src/irc.cpp:208-217 | a line of 8192 bytes is accepted with its CRLF in one chunk and rejected when a chunk ends between CR and LF |
| IrcMessages.UnescapeIrcTag | src/irc.cpp:22-61 | the loop with its escape flag computes the recursive unescaping |
| IrcMessages.ParseIrcMessage | src/irc.cpp:63-179 | the position loops terminate on every input and compute the stage-wise parse |
| IrcMessages.ParseTagSection | src/irc.cpp:83-104 | the tag loop |
| IrcMessages.ParseFromPrefix | src/irc.cpp:108-119 | the prefix stage |
| IrcMessages.ParseFromCommand | src/irc.cpp:121-147 | the command stage |
| IrcMessages.ParseParametersFrom | src/irc.cpp:147-170 | the parameter loop with its limit on middle parameters |
| IrcRoundTrip.UnescapeInvertsEscape | src/irc.cpp:22-61 | unescaping undoes IRCv3 escaping of every value, and a lone final backslash survives |
| IrcRoundTrip.UnescapeDiffersExactly | src/irc.cpp:57-59 | for every value, unescaping is what the IRCv3 specification says, plus a backslash if the value ends in an odd number of them |
| IrcRoundTrip.TagsReadBack | src/irc.cpp:85-104 | printed tags are read back as a map in which the last of equal keys wins |
| IrcRoundTrip.ParseInvertsPrint | src/irc.cpp:63-179 | every message of the grammar (any tags, optional prefix, alphanumeric command, middle parameters and a trailing one) is read back with its meaning, or rejected if it has more than 32 middle parameters or more than 8192 bytes |
| IrcRoundTrip.ManyParametersExactly | src/irc.cpp:153-164 | a printed message is accepted with more than 32 parameters if and only if it has 32 middle parameters and a trailing one |
| IrcRoundTrip.CrowdedLines | src/irc.cpp:153-164 | a line with 33 parameters is accepted, one with 34 is not |
| IrcRoundTrip.AcceptedIsWellFormed | src/irc.cpp:63-179 | conversely every accepted line means a well-formed message, with more than 32 parameters exactly when it has 32 middle ones and a trailing one; printing it parses to the same message |
| IrcGrammar.WrittenIsRead | src/irc.cpp:63-179 | however a message is written (extra spaces, any escapes, keys without values, any letter case of the command) it is read with its meaning, or rejected above 32 middle parameters or 8192 bytes |
| IrcGrammar.AcceptedExactly | src/irc.cpp:63-179 | a line is accepted as a message if and only if it writes that message in this grammar, within the two limits |
| IrcGrammar.BareCommand | src/irc.cpp:129-147 | a word is a command if and only if it has letters and digits only, and it is read in capitals |
| IrcGrammar.LinesAreOneLine | src/irc.cpp:63-189 | accepted lines have 1 to 8192 bytes without CR and LF; encoding accepts exactly 1 to 510 bytes without them and appends CRLF |
| IrcRoundTrip.EncodedIsReceived | src/irc.cpp:181-222 | legal lines encoded one after another are received line by line under every chunking into reads |
| IrcRoundTrip.PrivmsgReadBack | src/irc.cpp:191-199 | make_privmsg of a plain channel and text is read back as PRIVMSG with the channel and the text |
| IrcRoundTrip.PongReadBack | src/session_protocol.cpp:49-56 | the answer can be encoded if and only if the parameter has at most 504 bytes, and then it is read back as PONG with it |
| SessionInvariants.PingAnswered | src/session_protocol.cpp:49-56 | a PING is answered by one PONG with exactly its first parameter, or handling throws when that has more than 504 bytes |
| Configuration.NormalizedIsStable | src/config.cpp:247-266 | accepted names are valid, and valid names are fixed points with or without the channel sign |
| Configuration.TokenIsStable | src/config.cpp:268-286 | an accepted token is a fixed point and fits into PASS |
| Spelling.LoginExactly | src/config.cpp:247-258 | a value is accepted as a login name if and only if it is padding around 1 to 25 letters, digits and underscores, and gives them in small letters |
| Spelling.ChannelExactly | src/config.cpp:260-266 | a channel is a login name, optionally behind padding and one channel sign |
| Spelling.TokenExactly | src/config.cpp:268-286 | a token is accepted if and only if, padding and an optional prefix apart, it is 10 to 499 letters, digits, underscores and hyphens and neither placeholder; it is given with the prefix |
| Spelling.PiecesAreItems | src/config.cpp:226-229 | comma-separated items are read back, also with a comma at the end |
| Spelling.ListExactly | src/config.cpp:226-237 | a channel list is accepted if and only if every item names a channel and there are 1 to 100 different ones; the result has each once |
| Configuration.ParseChannels | src/config.cpp:226-237 | the loop with its set computes the channels in order of first mention, with the size limits |
| Configuration.DeduplicatedIsSet | src/config.cpp:226-234 | the list has no duplicates, only valid names, and exactly the named channels |
| Configuration.LengthBudget | src/config.cpp:70-80 | PASS, NICK, CAP REQ, JOIN and every automated PRIVMSG of a validated configuration can be encoded |
| Configuration.ChatReadBack | src/twitch_irc_client.cpp:180 | an automated response to a normalised channel is encoded and read back as PRIVMSG with that channel and the configured text |
| Protocol.SessionProtocol.Begin | src/session_protocol.cpp:29-46 | the state change and the three greeting lines, once |
| Protocol.SessionProtocol.Handle | src/session_protocol.cpp:48-95 | state, memory and actions for one message, in the order of the branches |
| Protocol.SessionProtocol.Acknowledge | src/session_protocol.cpp:79-87 | the loop over the words of an ACK is a fold of insertions and removals |
| Protocol.SessionProtocol.BecomeReadyIfPossible | src/session_protocol.cpp:97-119 | the readiness check with its batch of JOINs |
| Readiness.LastMentionWins | src/session_protocol.cpp:79-87 | the acknowledged set holds a capability if and only if its last mention grants it |
| Readiness.WovenWords | src/session_protocol.cpp:79-82 | the words of an ACK are read back whatever blanks are between and around them |
| Readiness.Remembers | src/session_protocol.cpp:78-93 | after any messages the two remembered facts are exactly "was welcomed" and the fold of all ACK words |
| Readiness.ReadyExactly | src/session_protocol.cpp:48-119 | after any messages: ready if and only if welcomed, every required capability granted by its last mention, and a CAP ACK after the last breaking message (if any) |
| Readiness.ReadyBatchExactly | src/session_protocol.cpp:97-119 | a ready batch is emitted exactly when the session is then ready and was not before or the message is a CAP ACK |
| Readiness.ReadyBatchContents | src/session_protocol.cpp:111-119 | the batch is the ready action and one JOIN for each configured channel, in order |
| Readiness.UnbrokenReadiness | src/session_protocol.cpp:48-119 | without RECONNECT, NAK or login failure, ready means satisfied |
| Readiness.FailedIsNotAbsorbing | src/session_protocol.cpp:69-95 | NAK, welcome, ACK make the protocol object ready |
| Verdicts.LoginFailureExactly | src/session_protocol.cpp:13-23 | a message rejects the login if and only if it is a NOTICE with a part of its last parameter equal, up to letter case, to one of the two texts |
| Verdicts.RejectedLogin | src/session_protocol.cpp:62-65 | such a NOTICE makes the protocol fail and give up |
| Verdicts.OneMessage | src/session_protocol.cpp:48-95 | exactly 001 and GLOBALUSERSTATE welcome; exactly which messages lead to the failed and the reconnect state |
| Verdicts.ActionsGiveVerdict | src/session_protocol.cpp:48-95 | the actions end a session exactly for an unanswerable PING, RECONNECT, a rejected login or refused capabilities, each with its own reason |
| Verdicts.TwitchRejectsLogin | src/session_protocol.cpp:20-23 | the line with which Twitch rejects a token is parsed and makes the protocol give up |
| Verdicts.TwitchMakesReady | src/session_protocol.cpp:74-119 | the two lines of a successful login, in either order, are parsed and make the session ready |
| Automation.AutomationEngine.Handle | src/automation.cpp:36-46 | dispatch on the command |
| Automation.AutomationEngine.HandlePrivmsg | src/automation.cpp:48-77 | the loop over the rules computes the new last-sent times and the responses in rule order |
| Automation.AutomationEngine.HandleUsernotice | src/automation.cpp:79-110 | one hype event, with suppression before the kind is looked at |
| Cooldowns.ResponsesAreFired | src/automation.cpp:62-75 | the output of a chat message holds exactly the responses of the rules that fire |
| Cooldowns.RuleCooldownSafeAndOptimal | src/automation.cpp:62-76 | over any run, responses of one rule are a cooldown apart, and no selection of its matching events with that spacing is larger |
| Cooldowns.GreedyIsMaximum | src/automation.cpp:69-73 | taking every event that has cooled down stays ahead of every other selection |
| Cooldowns.RoundRobin | src/automation.cpp:94-109 | the k-th subscription (gift) response is entry k modulo the list length, for every interleaving; any two hype responses are a cooldown apart; the indices stay in range |
| Cooldowns.HypeOptimal | src/automation.cpp:94-96 | no selection of the hype events with that spacing is larger than what is answered |
| Cooldowns.NeverThrows | src/config.cpp:149-154 | with validated settings no event makes the engine throw |
| Triggers.RulesAnswerExactly | src/automation.cpp:48-77 | a chat message is answered by exactly the rules that are enabled, whose sender is the writer, whose channel is absent or the channel, whose pattern is a part of the text, and that have cooled down; with their texts and delays, in order; exactly these start cooling down |
| Triggers.OtherChatIsIgnored | src/automation.cpp:50-57 | a PRIVMSG without text, from nobody or to no channel is not answered and changes nothing |
| Triggers.HypeAnswersExactly | src/automation.cpp:79-110 | sub and resub notices of the hype channel get the next message of the first list, subgift and submysterygift the next of the second, if the shared cooldown has passed; no other notice does anything |
| Triggers.ChatLineIsChat | src/automation.cpp:9-28 | a line `:nick!host PRIVMSG #channel :text` with any tags is read as that chat message |
| Triggers.NoticeLineIsNotice | src/automation.cpp:85-99 | a USERNOTICE line with a msg-id tag is read as that notice |
| SessionInvariants.LineKeeps | src/twitch_irc_client.cpp:159-186 | handling a line keeps the session's invariant and throws exactly at PINGs that cannot be answered |
| SessionInvariants.ReadKeeps | src/twitch_irc_client.cpp:134-157 | a read keeps it too |
| SessionInvariants.HandshakeKeeps | src/twitch_irc_client.cpp:102-115 | after the handshake the first three messages are PASS, NICK and CAP REQ |
| SessionEnds.LineEnds | src/twitch_irc_client.cpp:159-207 | a line ends an open session exactly for its verdict, or because a protocol message found 1000 messages waiting |
| SessionEnds.CallbackEnds | src/twitch_irc_client.cpp:102-290 | a callback ends an open session exactly for the reason given by what arrived, and reports that reason; otherwise the session stays open |
| SessionTalk.LineTalks | src/twitch_irc_client.cpp:159-193 | a handled line makes an open session offer exactly its reply: the PONG, the JOINs of a ready batch and, if and only if the session is ready then, one PRIVMSG for each response of the bot with its channel and due time; the engine moves on only then |
| SessionInvariants.ClosedReadIsSilent | src/twitch_irc_client.cpp:142-150 | a late read of a closed session handles at most its first line, sends nothing and reports no second end |
| SessionInvariants.LateLineExactly | src/twitch_irc_client.cpp:142-150 | a read handles a line at a moment when the session is closed if and only if the session was closed before the read and the read completes a line |
| SessionInvariants.LateReadHandlesLine | src/twitch_irc_client.cpp:142-150 | a PING read by a closed session is handled up to taking a sequence number for its answer |
| SessionTraffic.ReadAnswersPings | src/twitch_irc_client.cpp:142-157 | the system messages that one read of an open session offers are a prefix of the PONGs of the PINGs among its lines, in their order, and all of them if the session stays open |
| SessionTraffic.SaidInOrder | src/twitch_irc_client.cpp:229-242 | the system lines on the wire are, in order, the first of those the session offered |
| Clients.TwitchIrcClient.Start | src/twitch_irc_client.cpp:325 | the first connection is scheduled at once |
| Clients.TwitchIrcClient.ScheduleConnection | src/twitch_irc_client.cpp:342-352 | the timer is armed unless the client is stopping |
| Clients.TwitchIrcClient.OnReconnectTimer | src/twitch_irc_client.cpp:347-351 | a new session, unless stopping |
| Clients.TwitchIrcClient.Connect | src/twitch_irc_client.cpp:354-362 | the new session shares the client's limiter with its state |
| Clients.TwitchIrcClient.HandleSessionEnd | src/twitch_irc_client.cpp:364-385 | stop, fatal end, or reconnect with backoff |
| Clients.TwitchIrcClient.OnReady | src/twitch_irc_client.cpp:360 | readiness resets the backoff |
| Clients.TwitchIrcClient.Stop | src/twitch_irc_client.cpp:327-337 | stopping cancels the timer and closes the session |
| Clients.TwitchIrcClient.Deliver | src/twitch_irc_client.cpp:354-385 | a callback of a session, followed by the ready and end handlers it calls, changes session and client as the functions of the event machine say |
| Clients.BackoffTotal | src/twitch_irc_client.cpp:379-384 | n consecutive non-fatal ends wait 2^min(n,7) - 1 + 64*max(0, n-7) seconds in all, plus at most half a second of jitter each, and never less than a second |
| EventLoops.EventLoop.constructor | src/twitch_irc_client.cpp:325 | the started client is the state in which runs begin |
| EventLoops.EventLoop.Take | src/twitch_irc_client.cpp:325-385 | every event, taken by the client and session objects, leads to the state that the event machine gives |
| ClientRuns.NextKeeps | src/twitch_irc_client.cpp:325-385 | every event keeps the invariant of the whole client |
| ClientTheorems.WindowSafety | src/twitch_irc_client.cpp:225-272 | over every run, across reconnects: at most 20 chat instants in any half-open 30 s, at most 20 JOIN instants in any 10 s |
| ClientTheorems.ChannelSafety | src/twitch_irc_client.cpp:225-272 | chat instants on one channel are a second apart, over every run |
| ClientTheorems.LimiterExact | src/rate_limiter.cpp:8-33 | in every reachable state the deques have at most 20 entries and the answer is the least instant the full history permits |
| ClientTheorems.LimiterInNumbers | src/rate_limiter.cpp:14-33 | in every reachable state the answer for chat and JOIN is exact in the documented numbers 20 in 30 s, 1 per second and channel, 20 in 10 s |
| ClientTheorems.HistoryIsComplete | src/twitch_irc_client.cpp:265-267 | no event forgets a record, and each completed write adds one with its start and completion |
| ClientTheorems.NoLostWakeUp | src/twitch_irc_client.cpp:221-272 | in every reachable open session with waiting messages a write is in flight, or the timer is armed for exactly the first instant at which one of them is sendable |
| ClientTheorems.Conservation | src/twitch_irc_client.cpp:209-272 | in every reachable state each offered message is in exactly one place and at most 1000 wait |
| ClientTheorems.WireOrderOfSession | src/twitch_irc_client.cpp:188-242 | every session's wire starts PASS, NICK, CAP REQ; system messages leave in the order offered; nothing that keeps its place is overtaken |
| ClientTheorems.SystemMessagesNeverDelayed | src/rate_limiter.cpp:17-19 | in every reachable open session a waiting system message means a write is in flight |
| ClientTraffic.FramesWholeStream | src/twitch_irc_client.cpp:129-157 | in every run, an open session past the handshake has cut everything it read into the lines of the whole stream and buffers its tail |
| ClientTraffic.AnswersEveryPing | src/twitch_irc_client.cpp:102-207 | in every run, the system messages such a session has offered are exactly PASS, NICK, CAP REQ and one PONG per PING of everything it read, in order |
| ClientTraffic.AnswersInOrder | src/twitch_irc_client.cpp:129-271 | in every run, the system lines on the wire of any session, open or closed, are a prefix of its greeting and the PONGs of everything it read, so PONGs leave in the order of their PINGs |
| ClientTalk.SaysExactly | src/twitch_irc_client.cpp:102-207 | in every run, everything an open session past the handshake has offered is the greeting and, for each message in the stream it read, the PONG, the JOINs if the message completes a ready batch, and the bot's responses if the session is ready after it, with kind, channel and due time, in order |
| ClientTalk.SaysNothingElse | src/twitch_irc_client.cpp:102-207 | what any session, open or closed, has offered is a prefix of that |
| ClientTalk.ChatExactly | src/twitch_irc_client.cpp:175-185 | in every run, the chat an open session has offered is exactly the bot's responses to the messages after which it was ready |
| ClientEnds.EndsExactly | src/twitch_irc_client.cpp:102-385 | in every step of every run, an open session ends exactly for its cause and with that reason (RECONNECT; rejected login, refused capabilities or a deadline that finds it not ready; failed dial, read or write, assembler error, unanswerable PING or full queue; stop), and the client then goes on, reconnects, or stops with its exit code |
| ClientBackoff.ReconnectWait | src/twitch_irc_client.cpp:360-385 | in every run, an armed reconnect lies 2^min(k,6) seconds and the drawn jitter of at most 500 ms after the last non-fatal end, where k such ends came before it since the last ready; the first connection is due at once |
| ClientTheorems.AuthenticationDeadline | src/twitch_irc_client.cpp:118-127 | in every reachable open session past the handshake the deadline is armed exactly until the session first becomes ready |
| ClientTheorems.DeadlineAfterHandshake | src/twitch_irc_client.cpp:118-127 | in every run an armed deadline is 20 s after the handshake |
| ClientTheorems.EndingCancelsTimers | src/twitch_irc_client.cpp:274-290 | in every run the end of a session cancels both its timers |
| ClientTheorems.Lifecycle | src/twitch_irc_client.cpp:274-385 | exactly one open session or armed reconnect unless stopping, then none; each session reports its end at most once; exit code 1 exactly after a fatal end |
| ClientTheorems.StoppingIsFinal | src/twitch_irc_client.cpp:327-377 | after a fatal end or a stop there is no later connection |
| ClientTheorems.GatedByReadiness | docs/ARCHITECTURE.md:34-37 | JOIN and chat lines are enqueued only after readiness was reached in that session |
| ClientTheorems.BufferBound | src/twitch_irc_client.cpp:301 | a read into an open session never meets the limit on the whole buffer |
| ClientTheorems.LateReadHappens | src/twitch_irc_client.cpp:134-150 | connecting, handshaking and stopping at one instant leaves a closed session with a read pending, whose handler then handles a PING |
| ClientTheorems.BatchIsBurst | src/session_protocol.cpp:112-118 | applying a ready batch to an idle session is the burst of JOINs of the configured channels |
| ClientTheorems.JoinsAfterReady | src/session_protocol.cpp:112-118 | when a session, also one after a reconnect, becomes ready while idle and every earlier JOIN has left the window, then with instantaneous writes the k-th configured channel is joined exactly 10 s * floor(k / 20) after readiness |

## Left out

- One instant per callback: within a callback the code reads the clock several times; the
  composed client uses one instant for all of them. The queue's own invariant
  (SchedulerInvariants) is proved for any instants and any due times.
- ClientRuns.NextKeeps: assumes that the pending handlers of a closed session run before
  the next session is made, as `Enabled` says; a handler delayed beyond the reconnect wait
  of at least a second is not modelled.
- ClientTheorems.WindowSafety: speaks of completed writes; a write that was aborted is not
  recorded by the program and not counted.
- JoinBurst.BurstPace: the burst has at most 1000 JOINs, the size of the queue.
- IrcSessions.IrcSession.OnHandshake: an exception thrown while greeting ends the program;
  with a validated configuration it is not thrown (Configuration.LengthBudget).
- After a fatal end the program stops its event loop; the event machine lets the remaining
  events happen and shows that no connection is made.
- DNS, TCP, TLS and socket cancellation: only their outcomes are events.
- JSON parsing, the environment file, command-line options, signals and console output; a
  validated configuration is a predicate, and `getline` and stream extraction are functions
  on strings.
- The reset functions of limiter, assembler and engine, which the client never calls.
- Locale behaviour of character classes: the "C" locale is fixed.
- The texts of parse errors and end messages: only accept, reject and the kind of end matter.
- Overflow of clock values, of the 64-bit sequence number and of the attempt counter.
