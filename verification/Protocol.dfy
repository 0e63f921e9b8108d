/** Authentication and capability negotiation of one session (IRCv3 Capability
    Negotiation), driven by an arbitrary server. */
module Protocol {
  import opened Basics
  import opened IrcText
  import opened IrcMessages
  import opened RateLimits
  import opened Configuration

  datatype SessionState =
    | Disconnected
    | TlsConnected
    | Authenticating
    | CapabilityNegotiation
    | Ready
    | ReconnectRequested
    | Failed

  datatype Action =
    | Send(data: string, kind: Kind, channel: string)
    | BecameReady
    | Reconnect
    | GiveUp

  datatype Negotiation = Negotiation(state: SessionState, authenticated: bool, acknowledged: set<string>)

  const REQUIRED := {MEMBERSHIP, TAGS, COMMANDS}
  const NEW_NEGOTIATION := Negotiation(Disconnected, false, {})

  // ---------------------------------------------------------------------------
  // Capability lists
  // ---------------------------------------------------------------------------

  function SpaceAt(s: string): (k: nat)
    ensures k <= |s|
    ensures s != "" && !IsSpace(s[0]) ==> k > 0
  {
    if s == "" || IsSpace(s[0]) then 0 else 1 + SpaceAt(s[1..])
  }

  /** The words that stream extraction delivers. */
  function Tokens(s: string): seq<string>
    decreases |s|
  {
    var t := TrimLeft(s);
    if t == "" then []
    else
      WordNonEmpty(s);
      [t[..SpaceAt(t)]] + Tokens(t[SpaceAt(t)..])
  }

  lemma {:induction false} WordNonEmpty(s: string)
    ensures TrimLeft(s) != "" ==> SpaceAt(TrimLeft(s)) > 0
  {
    if s != "" && IsSpace(s[0]) {
      WordNonEmpty(s[1..]);
    }
  }

  function AckToken(acked: set<string>, token: string): set<string> {
    if token != "" && token[0] == '-' then acked - {token[1..]} else acked + {token}
  }

  function AckAll(acked: set<string>, tokens: seq<string>): set<string>
    decreases |tokens|
  {
    if tokens == [] then acked else AckAll(AckToken(acked, tokens[0]), tokens[1..])
  }

  // ---------------------------------------------------------------------------
  // The messages that matter
  // ---------------------------------------------------------------------------

  predicate IsLoginFailure(m: IrcMessage) {
    && m.command == "NOTICE" && m.parameters != []
    && var text := Lower(m.parameters[|m.parameters| - 1]);
       Contains(text, "login authentication failed") || Contains(text, "improperly formatted auth")
  }

  predicate IsCap(m: IrcMessage, status: string) {
    m.command == "CAP" && |m.parameters| >= 2 && m.parameters[1] == status
  }

  predicate IsWelcome(m: IrcMessage) {
    m.command == "001" || m.command == "GLOBALUSERSTATE"
  }

  function LastParameter(m: IrcMessage): string {
    if m.parameters == [] then "" else m.parameters[|m.parameters| - 1]
  }

  // ---------------------------------------------------------------------------
  // One message
  // ---------------------------------------------------------------------------

  function JoinActions(channels: seq<string>): Result<seq<Action>> {
    if channels == [] then Ok([])
    else
      var n := |channels| - 1;
      var before := JoinActions(channels[..n]);
      var line := EncodeIrcLine("JOIN #" + channels[n]);
      if before.Thrown? || line.Thrown? then Thrown
      else Ok(before.value + [Send(line.value, Join, channels[n])])
  }

  function AfterReadyCheck(config: RuntimeConfig, p: Negotiation): (Negotiation, Result<seq<Action>>) {
    if p.state.Ready? || p.state.Failed? || p.state.ReconnectRequested? || !p.authenticated then (p, Ok([]))
    else if !(REQUIRED <= p.acknowledged) then (p, Ok([]))
    else
      var joins := JoinActions(config.channels);
      (p.(state := Ready), if joins.Thrown? then Thrown else Ok([BecameReady] + joins.value))
  }

  function AfterBegin(config: RuntimeConfig, p: Negotiation): (Negotiation, Result<seq<Action>>) {
    if !p.state.Disconnected? && !p.state.TlsConnected? then (p, Ok([]))
    else
      var pass := EncodeIrcLine("PASS " + config.oauthToken);
      var nick := EncodeIrcLine("NICK " + config.username);
      var cap := EncodeIrcLine(CAP_REQ);
      (p.(state := Authenticating),
       if pass.Thrown? || nick.Thrown? || cap.Thrown? then Thrown
       else Ok([Send(pass.value, System, ""), Send(nick.value, System, ""), Send(cap.value, System, "")]))
  }

  function AfterHandle(config: RuntimeConfig, p: Negotiation, m: IrcMessage): (Negotiation, Result<seq<Action>>) {
    if m.command == "PING" then
      if m.parameters == [] then (p, Ok([]))
      else
        var pong := EncodeIrcLine("PONG :" + m.parameters[0]);
        (p, if pong.Thrown? then Thrown else Ok([Send(pong.value, System, "")]))
    else if m.command == "RECONNECT" then (p.(state := ReconnectRequested), Ok([Reconnect]))
    else if IsLoginFailure(m) || IsCap(m, "NAK") then (p.(state := Failed), Ok([GiveUp]))
    else
      var p := if IsCap(m, "ACK") then
                 p.(acknowledged := AckAll(p.acknowledged, Tokens(LastParameter(m))), state := CapabilityNegotiation)
               else p;
      AfterReadyCheck(config, if IsWelcome(m) then p.(authenticated := true) else p)
  }

  class SessionProtocol {
    const config: RuntimeConfig
    var state: SessionState
    var authenticated: bool
    var acknowledged: set<string>

    ghost function View(): Negotiation
      reads this
    {
      Negotiation(state, authenticated, acknowledged)
    }

    constructor (config: RuntimeConfig)
      ensures this.config == config && View() == NEW_NEGOTIATION
    {
      this.config := config;
      state, authenticated, acknowledged := Disconnected, false, {};
    }

    method Begin() returns (r: Result<seq<Action>>)
      modifies this
      ensures (View(), r) == AfterBegin(config, old(View()))
    {
      if state != Disconnected && state != TlsConnected {
        return Ok([]);
      }
      state := Authenticating;
      var pass := EncodeIrcLine("PASS " + config.oauthToken);
      var nick := EncodeIrcLine("NICK " + config.username);
      var cap := EncodeIrcLine(CAP_REQ);
      if pass.Thrown? || nick.Thrown? || cap.Thrown? {
        return Thrown;
      }
      return Ok([Send(pass.value, System, ""), Send(nick.value, System, ""), Send(cap.value, System, "")]);
    }

    method BecomeReadyIfPossible() returns (r: Result<seq<Action>>)
      modifies this
      ensures (View(), r) == AfterReadyCheck(config, old(View()))
    {
      if state == Ready || state == Failed || state == ReconnectRequested || !authenticated {
        return Ok([]);
      }
      if !(REQUIRED <= acknowledged) {
        return Ok([]);
      }
      state := Ready;
      var actions := [BecameReady];
      for i := 0 to |config.channels|
        invariant View() == old(View()).(state := Ready)
        invariant JoinActions(config.channels[..i]).Ok?
        invariant actions == [BecameReady] + JoinActions(config.channels[..i]).value
      {
        var line := EncodeIrcLine("JOIN #" + config.channels[i]);
        assert config.channels[..i + 1][..i] == config.channels[..i];
        if line.Thrown? {
          JoinActionsPrefix(config.channels, i + 1);
          return Thrown;
        }
        actions := actions + [Send(line.value, Join, config.channels[i])];
      }
      assert config.channels[..|config.channels|] == config.channels;
      return Ok(actions);
    }

    method Handle(message: IrcMessage) returns (r: Result<seq<Action>>)
      modifies this
      ensures (View(), r) == AfterHandle(config, old(View()), message)
    {
      hide Tokens, AfterReadyCheck;
      if message.command == "PING" {
        if message.parameters == [] {
          return Ok([]);
        }
        var pong := EncodeIrcLine("PONG :" + message.parameters[0]);
        if pong.Thrown? {
          return Thrown;
        }
        return Ok([Send(pong.value, System, "")]);
      }
      if message.command == "RECONNECT" {
        state := ReconnectRequested;
        return Ok([Reconnect]);
      }
      if IsLoginFailure(message) {
        state := Failed;
        return Ok([GiveUp]);
      }
      if message.command == "CAP" && |message.parameters| >= 2 {
        var status := message.parameters[1];
        if status == "NAK" {
          state := Failed;
          return Ok([GiveUp]);
        }
        if status == "ACK" {
          Acknowledge(LastParameter(message));
          state := CapabilityNegotiation;
        }
      }
      if message.command == "001" || message.command == "GLOBALUSERSTATE" {
        authenticated := true;
      }
      r := BecomeReadyIfPossible();
    }

    /** The loop over the words of an ACK. */
    method Acknowledge(capabilities: string)
      modifies this`acknowledged
      ensures acknowledged == AckAll(old(acknowledged), Tokens(capabilities))
    {
      var rest := TrimLeft(capabilities);
      TrimTwice(capabilities);
      while rest != ""
        invariant TrimLeft(rest) == rest
        invariant AckAll(acknowledged, Tokens(rest)) == AckAll(old(acknowledged), Tokens(capabilities))
        decreases |rest|
      {
        WordNonEmpty(rest);
        var k := SpaceAt(rest);
        var capability := rest[..k];
        if capability[0] == '-' {
          acknowledged := acknowledged - {capability[1..]};
        } else {
          acknowledged := acknowledged + {capability};
        }
        TrimTwice(rest[k..]);
        assert Tokens(rest)[1..] == Tokens(rest[k..]);
        rest := TrimLeft(rest[k..]);
      }
    }
  }

  lemma {:induction false} TrimTwice(s: string)
    ensures TrimLeft(TrimLeft(s)) == TrimLeft(s)
    ensures Tokens(TrimLeft(s)) == Tokens(s)
  {
    if s != "" && IsSpace(s[0]) {
      TrimTwice(s[1..]);
    }
  }

  lemma {:induction false} JoinActionsPrefix(channels: seq<string>, k: nat)
    requires k <= |channels| && JoinActions(channels[..k]).Thrown?
    ensures JoinActions(channels).Thrown?
    decreases |channels| - k
  {
    if k == |channels| {
      assert channels[..k] == channels;
    } else {
      assert channels[..k + 1][..k] == channels[..k];
      JoinActionsPrefix(channels, k + 1);
    }
  }
}
