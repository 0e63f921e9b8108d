/** Parsing one IRC line, and encoding outgoing lines. */
module IrcMessages {
  import opened Basics
  import opened Framing
  import opened IrcText

  const MAX_OUTGOING_PAYLOAD_BYTES: nat := 510
  const MAX_MIDDLE_PARAMETERS: nat := 32

  datatype IrcMessage = IrcMessage(
    tags: map<string, string>,
    prefix: string,
    command: string,
    parameters: seq<string>)

  // ---------------------------------------------------------------------------
  // Tag values
  // ---------------------------------------------------------------------------

  /** What the character after a backslash stands for. */
  function Unescaped(c: char): char {
    match c
    case 's' => ' '
    case ':' => ';'
    case 'r' => '\r'
    case 'n' => '\n'
    case _ => c
  }

  /** A backslash that ends the value is kept. */
  function Unescape(value: string): string
    decreases |value|
  {
    if value == "" then ""
    else if value[0] != '\\' then [value[0]] + Unescape(value[1..])
    else if |value| == 1 then "\\"
    else [Unescaped(value[1])] + Unescape(value[2..])
  }

  /** What is left to emit when the loop has reached `s`. */
  function UnescapeRest(escaped: bool, s: string): string {
    if !escaped then Unescape(s)
    else if s == "" then "\\"
    else [Unescaped(s[0])] + Unescape(s[1..])
  }

  /** What the loop emits for one character, and whether the next one is escaped. */
  function Emitted(escaped: bool, c: char): string {
    if escaped then [Unescaped(c)] else if c == '\\' then "" else [c]
  }

  lemma UnescapeStep(escaped: bool, s: string)
    requires s != ""
    ensures UnescapeRest(escaped, s)
            == Emitted(escaped, s[0]) + UnescapeRest(!escaped && s[0] == '\\', s[1..])
  {
    if !escaped && s[0] == '\\' && |s| > 1 {
      assert s[1..][1..] == s[2..];
    }
  }

  method UnescapeIrcTag(value: string) returns (result: string)
    ensures result == Unescape(value)
  {
    hide UnescapeRest;
    result := "";
    var escaped := false;
    assert UnescapeRest(false, value[0..]) == Unescape(value) by {
      UnescapeEnds(value);
    }
    for i := 0 to |value|
      invariant result + UnescapeRest(escaped, value[i..]) == Unescape(value)
    {
      var character := value[i];
      ghost var before, was := result, escaped;
      UnescapeStep(escaped, value[i..]);
      assert value[i..][1..] == value[i + 1..];
      if !escaped && character == '\\' {
        escaped := true;
        continue;
      }
      if escaped {
        match character {
          case 's' => result := result + [' '];
          case ':' => result := result + [';'];
          case 'r' => result := result + ['\r'];
          case 'n' => result := result + ['\n'];
          case '\\' => result := result + ['\\'];
          case _ => result := result + [character];
        }
        assert result == before + Emitted(was, character);
        escaped := false;
        continue;
      }
      result := result + [character];
    }
    UnescapeEnds(value);
    if escaped {
      result := result + ['\\'];
    }
  }

  lemma UnescapeEnds(value: string)
    ensures UnescapeRest(false, value[0..]) == Unescape(value)
    ensures forall e :: UnescapeRest(e, value[|value|..]) == if e then "\\" else ""
  {
    assert value[0..] == value && value[|value|..] == "";
  }

  // ---------------------------------------------------------------------------
  // The parser, stage by stage on what is left of the line
  // ---------------------------------------------------------------------------

  function ParseTags(section: string, tags: map<string, string>): Option<map<string, string>>
    decreases |section|
  {
    var separator := IndexOf(section, ';', 0);
    var rawTag := section[..separator];
    var equals := IndexOf(rawTag, '=', 0);
    var key := rawTag[..equals];
    if key == "" then None
    else
      var rawValue := if equals == |rawTag| then "" else rawTag[equals + 1..];
      var tags' := tags[key := Unescape(rawValue)];
      if separator == |section| then Some(tags') else ParseTags(section[separator + 1..], tags')
  }

  function ParseParameters(rest: string, parameters: seq<string>): Option<seq<string>>
    decreases |rest|
  {
    var s := SkipSpaces(rest);
    if s == "" then Some(parameters)
    else if s[0] == ':' then Some(parameters + [s[1..]])
    else
      var end := IndexOf(s, ' ', 0);
      var parameters' := parameters + [s[..end]];
      if |parameters'| > MAX_MIDDLE_PARAMETERS then None
      else if end == |s| then Some(parameters')
      else ParseParameters(s[end + 1..], parameters')
  }

  function ParseCommand(tags: map<string, string>, prefix: string, rest: string): Option<IrcMessage> {
    var s := SkipSpaces(rest);
    var end := IndexOf(s, ' ', 0);
    var command := Upper(s[..end]);
    if command == "" || !AllAlnum(command) then None
    else if end == |s| then Some(IrcMessage(tags, prefix, command, []))
    else
      match ParseParameters(s[end + 1..], [])
      case None => None
      case Some(parameters) => Some(IrcMessage(tags, prefix, command, parameters))
  }

  function ParsePrefix(tags: map<string, string>, rest: string): Option<IrcMessage> {
    var s := SkipSpaces(rest);
    if s != "" && s[0] == ':' then
      var end := IndexOf(s, ' ', 0);
      if end == |s| || end == 1 then None else ParseCommand(tags, s[1..end], s[end + 1..])
    else ParseCommand(tags, "", s)
  }

  function ParseLine(line: string): Option<IrcMessage> {
    if line == "" || |line| > MAX_LINE_BYTES || HasLineBreak(line) then None
    else if line[0] == '@' then
      var end := IndexOf(line, ' ', 0);
      if end == |line| then None
      else
        match ParseTags(line[1..end], map[])
        case None => None
        case Some(tags) => ParsePrefix(tags, line[end + 1..])
    else ParsePrefix(map[], line)
  }

  // ---------------------------------------------------------------------------
  // The parser as it moves one position through the line
  // ---------------------------------------------------------------------------

  method SkipSpacesFrom(line: string, from: nat) returns (position: nat)
    requires from <= |line|
    ensures from <= position <= |line|
    ensures line[position..] == SkipSpaces(line[from..])
  {
    position := from;
    while position < |line| && line[position] == ' '
      invariant from <= position <= |line|
      invariant SkipSpaces(line[position..]) == SkipSpaces(line[from..])
    {
      assert line[position..][1..] == line[position + 1..];
      position := position + 1;
    }
  }

  /** One round of the tag loop. */
  lemma TagStep(section: string, from: nat, tags: map<string, string>)
    requires from <= |section|
    ensures var separator := IndexOf(section, ';', from);
            var rawTag := section[from..separator];
            var equals := IndexOf(rawTag, '=', 0);
            var value := Unescape(if equals == |rawTag| then "" else rawTag[equals + 1..]);
            ParseTags(section[from..], tags)
            == if rawTag[..equals] == "" then None
               else if separator == |section| then Some(tags[rawTag[..equals] := value])
               else ParseTags(section[separator + 1..], tags[rawTag[..equals] := value])
  {
    hide IndexOf, Unescape;
    var separator := IndexOf(section, ';', from);
    IndexOfSuffix(section, ';', from);
    assert IndexOf(section[from..], ';', 0) == separator - from;
    assert section[from..separator] == section[from..][..separator - from];
    if separator < |section| {
      assert section[from..][separator - from + 1..] == section[separator + 1..];
    }
  }

  method ParseTagSection(section: string) returns (r: Option<map<string, string>>)
    ensures r == ParseTags(section, map[])
  {
    hide IndexOf, Unescape, ParseTags;
    var tags: map<string, string> := map[];
    var tagStart := 0;
    assert section[0..] == section;
    while tagStart <= |section|
      invariant 0 <= tagStart <= |section|
      invariant ParseTags(section[tagStart..], tags) == ParseTags(section, map[])
      decreases |section| - tagStart
    {
      TagStep(section, tagStart, tags);
      var separator := IndexOf(section, ';', tagStart);
      var rawTag := section[tagStart..separator];
      var equals := IndexOf(rawTag, '=', 0);
      var key := rawTag[..equals];
      if key == "" {
        return None;
      }
      var value := UnescapeIrcTag(if equals == |rawTag| then "" else rawTag[equals + 1..]);
      tags := tags[key := value];
      if separator == |section| {
        break;
      }
      tagStart := separator + 1;
    }
    return Some(tags);
  }

  method ParseParametersFrom(line: string, from: nat) returns (r: Option<seq<string>>)
    requires from <= |line|
    ensures r == ParseParameters(line[from..], [])
  {
    hide IndexOf, SkipSpaces;
    var parameters: seq<string> := [];
    var position := from;
    while position < |line|
      invariant from <= position <= |line|
      invariant ParseParameters(line[position..], parameters) == ParseParameters(line[from..], [])
      decreases |line| - position
    {
      ghost var before := position;
      position := SkipSpacesFrom(line, position);
      if position >= |line| {
        return Some(parameters);
      }
      if line[position] == ':' {
        assert line[position..][1..] == line[position + 1..];
        return Some(parameters + [line[position + 1..]]);
      }
      var end := IndexOf(line, ' ', position);
      IndexOfSuffix(line, ' ', position);
      assert line[position..][..end - position] == line[position..end];
      parameters := parameters + [line[position..end]];
      if |parameters| > MAX_MIDDLE_PARAMETERS {
        return None;
      }
      if end == |line| {
        return Some(parameters);
      }
      assert line[position..][end - position + 1..] == line[end + 1..];
      position := end + 1;
    }
    return Some(parameters);
  }

  method ParseFromCommand(line: string, from: nat, tags: map<string, string>, prefix: string)
    returns (r: Option<IrcMessage>)
    requires from <= |line|
    ensures r == ParseCommand(tags, prefix, line[from..])
  {
    hide IndexOf, SkipSpaces, ParseParameters, AllAlnum, Upper;
    var position := SkipSpacesFrom(line, from);
    var commandEnd := IndexOf(line, ' ', position);
    IndexOfSuffix(line, ' ', position);
    assert line[position..][..commandEnd - position] == line[position..commandEnd];
    var command := Upper(line[position..commandEnd]);
    if command == "" || !AllAlnum(command) {
      return None;
    }
    if commandEnd == |line| {
      return Some(IrcMessage(tags, prefix, command, []));
    }
    assert line[position..][commandEnd - position + 1..] == line[commandEnd + 1..];
    var parameters := ParseParametersFrom(line, commandEnd + 1);
    if parameters.None? {
      return None;
    }
    return Some(IrcMessage(tags, prefix, command, parameters.value));
  }

  method ParseFromPrefix(line: string, from: nat, tags: map<string, string>) returns (r: Option<IrcMessage>)
    requires from <= |line|
    ensures r == ParsePrefix(tags, line[from..])
  {
    hide IndexOf, SkipSpaces, ParseCommand;
    var position := SkipSpacesFrom(line, from);
    if position < |line| && line[position] == ':' {
      var end := IndexOf(line, ' ', position);
      IndexOfSuffix(line, ' ', position);
      if end == |line| || end == position + 1 {
        return None;
      }
      var prefix := line[position + 1..end];
      assert line[position..][1..end - position] == prefix;
      assert line[position..][end - position + 1..] == line[end + 1..];
      r := ParseFromCommand(line, end + 1, tags, prefix);
    } else {
      r := ParseFromCommand(line, position, tags, "");
    }
  }

  method ParseIrcMessage(line: string) returns (r: Option<IrcMessage>)
    ensures r == ParseLine(line)
  {
    hide IndexOf, ParseTags, ParsePrefix;
    if line == "" || |line| > MAX_LINE_BYTES || HasLineBreak(line) {
      return None;
    }
    if line[0] == '@' {
      var end := IndexOf(line, ' ', 0);
      if end == |line| {
        return None;
      }
      var tags := ParseTagSection(line[1..end]);
      if tags.None? {
        return None;
      }
      r := ParseFromPrefix(line, end + 1, tags.value);
    } else {
      assert line[0..] == line;
      r := ParseFromPrefix(line, 0, map[]);
    }
  }

  // ---------------------------------------------------------------------------
  // Outgoing lines
  // ---------------------------------------------------------------------------

  function EncodeIrcLine(line: string): Result<string> {
    if line == "" || HasLineBreak(line) || |line| > MAX_OUTGOING_PAYLOAD_BYTES then Thrown
    else Ok(line + "\r\n")
  }

  function MakePrivmsg(channel: string, text: string): Result<string> {
    if channel == "" || text == "" || HasLineBreak(channel) || HasLineBreak(text) then Thrown
    else
      var normalizedChannel := if channel[0] == '#' then channel else "#" + channel;
      EncodeIrcLine("PRIVMSG " + normalizedChannel + " :" + text)
  }
}
