/** Printing of messages after RFC 1459 section 2.3.1 with IRCv3 tags, and that the
    parser inverts it: every printed message is read back, and everything the
    parser accepts is the meaning of a printable message. */
module IrcRoundTrip {
  import opened Basics
  import opened Framing
  import opened IrcText
  import opened IrcMessages

  /** A tag is a key alone or a key with a value. */
  datatype Tag = Tag(key: string, value: Option<string>)

  /** A message as it is written on the wire. */
  datatype Wire = Wire(
    tags: seq<Tag>,
    prefix: Option<string>,
    command: string,
    middle: seq<string>,
    trailing: Option<string>)

  // ---------------------------------------------------------------------------
  // Printing
  // ---------------------------------------------------------------------------

  /** IRCv3 Message Tags, "Escaping values". */
  function EscapedChar(c: char): string {
    match c
    case ';' => "\\:"
    case ' ' => "\\s"
    case '\\' => "\\\\"
    case '\r' => "\\r"
    case '\n' => "\\n"
    case _ => [c]
  }

  function Escape(value: string): string {
    if value == "" then "" else EscapedChar(value[0]) + Escape(value[1..])
  }

  function PrintTag(tag: Tag): string {
    tag.key + (if tag.value.None? then "" else "=" + Escape(tag.value.value))
  }

  function PrintTags(tags: seq<Tag>): string {
    if tags == [] then ""
    else PrintTag(tags[0]) + (if |tags| == 1 then "" else ";" + PrintTags(tags[1..]))
  }

  function PrintMiddle(middle: seq<string>): string {
    if middle == [] then "" else " " + middle[0] + PrintMiddle(middle[1..])
  }

  function PrintParameters(middle: seq<string>, trailing: Option<string>): string {
    PrintMiddle(middle) + (if trailing.None? then "" else " :" + trailing.value)
  }

  function PrintFromCommand(w: Wire): string {
    w.command + PrintParameters(w.middle, w.trailing)
  }

  function PrintFromPrefix(w: Wire): string {
    (if w.prefix.None? then "" else ":" + w.prefix.value + " ") + PrintFromCommand(w)
  }

  function Print(w: Wire): string {
    (if w.tags == [] then "" else "@" + PrintTags(w.tags) + " ") + PrintFromPrefix(w)
  }

  // ---------------------------------------------------------------------------
  // Well-formedness and meaning
  // ---------------------------------------------------------------------------

  predicate GoodKey(key: string) {
    key != "" && ';' !in key && ' ' !in key && '=' !in key && !HasLineBreak(key)
  }

  predicate GoodMiddle(p: string) {
    p != "" && p[0] != ':' && ' ' !in p && !HasLineBreak(p)
  }

  /** The grammar, without the limit on parameters. */
  ghost predicate Shaped(w: Wire) {
    && (forall i | 0 <= i < |w.tags| :: GoodKey(w.tags[i].key))
    && (w.prefix.Some? ==> w.prefix.value != "" && ' ' !in w.prefix.value && !HasLineBreak(w.prefix.value))
    && w.command != "" && AllAlnum(w.command)
    && (forall i | 0 <= i < |w.middle| :: GoodMiddle(w.middle[i]))
    && (w.trailing.Some? ==> !HasLineBreak(w.trailing.value))
  }

  ghost predicate WellFormed(w: Wire) {
    Shaped(w) && |w.middle| <= MAX_MIDDLE_PARAMETERS
  }

  /** The last of several tags with the same key wins; a key alone has the empty value. */
  function TagMap(tags: seq<Tag>, base: map<string, string>): map<string, string> {
    if tags == [] then base
    else
      var value := if tags[0].value.None? then "" else tags[0].value.value;
      TagMap(tags[1..], base[tags[0].key := value])
  }

  function Parameters(w: Wire): seq<string> {
    w.middle + (if w.trailing.None? then [] else [w.trailing.value])
  }

  function Meaning(w: Wire): IrcMessage {
    IrcMessage(TagMap(w.tags, map[]), if w.prefix.None? then "" else w.prefix.value, Upper(w.command), Parameters(w))
  }

  // ---------------------------------------------------------------------------
  // Escaping
  // ---------------------------------------------------------------------------

  /** Unescaping undoes escaping, for every value; a lone backslash after it survives. */
  lemma {:induction false} UnescapeInvertsEscape(value: string)
    ensures Unescape(Escape(value)) == value
    ensures Unescape(Escape(value) + "\\") == value + "\\"
  {
    hide Unescape, EscapedChar;
    if value == "" {
      LoneBackslash();
      assert Escape(value) + "\\" == "\\" == value + "\\";
    } else {
      var rest := Escape(value[1..]);
      UnescapeInvertsEscape(value[1..]);
      UnescapeHead(value[0], rest);
      UnescapeHead(value[0], rest + "\\");
      assert Escape(value) + "\\" == EscapedChar(value[0]) + (rest + "\\");
      assert value + "\\" == [value[0]] + (value[1..] + "\\");
    }
  }

  /** IRCv3 Message Tags, "Escaping values": a lone backslash at the end is dropped. */
  function SpecUnescape(value: string): string
    decreases |value|
  {
    if value == "" then ""
    else if value[0] != '\\' then [value[0]] + SpecUnescape(value[1..])
    else if |value| == 1 then ""
    else [Unescaped(value[1])] + SpecUnescape(value[2..])
  }

  /** The number of backslashes at the end. */
  function Backslashes(value: string): nat {
    if value == "" || value[|value| - 1] != '\\' then 0 else 1 + Backslashes(value[..|value| - 1])
  }

  lemma {:induction false} BackslashesCons(value: string)
    requires value != ""
    ensures var rest := value[1..];
            Backslashes(value) == if value[0] == '\\' && Backslashes(rest) == |rest| then |rest| + 1 else Backslashes(rest)
    ensures Backslashes(value[1..]) <= |value| - 1
  {
    if |value| > 1 {
      var front := value[..|value| - 1];
      assert value[1..][..|value| - 2] == front[1..] && value[1..][|value| - 2] == value[|value| - 1];
      BackslashesCons(front);
    } else {
      assert value[..0] == "";
    }
  }

  lemma BackslashParity(value: string)
    ensures Backslashes("") == 0 && Backslashes("\\") == 1
    ensures value != "" && value[0] != '\\' ==> Backslashes(value) == Backslashes(value[1..])
    ensures |value| > 1 && value[0] == '\\' ==> Backslashes(value) % 2 == Backslashes(value[2..]) % 2
  {
    hide Backslashes;
    BackslashesCons("\\");
    assert Backslashes("") == 0 by { NoBackslashes(); }
    if value != "" {
      BackslashesCons(value);
      if |value| > 1 {
        BackslashesCons(value[1..]);
        assert value[1..][1..] == value[2..];
      }
    }
  }

  lemma NoBackslashes()
    ensures Backslashes("") == 0
  {
  }

  /** The backslash that a value ends in, if nothing before it escapes it. */
  function LastBackslash(value: string): string {
    if Backslashes(value) % 2 == 1 then "\\" else ""
  }

  /** The program's unescaping keeps the backslash that the specification drops; the two
      agree exactly on the values that end in an even number of backslashes. */
  lemma {:induction false} UnescapeDiffersExactly(value: string)
    ensures Unescape(value) == SpecUnescape(value) + LastBackslash(value)
    ensures Unescape(value) == SpecUnescape(value) <==> Backslashes(value) % 2 == 0
    decreases |value|
  {
    hide Backslashes, Unescaped;
    BackslashParity(value);
    if value != "" {
      if value[0] != '\\' {
        UnescapeDiffersExactly(value[1..]);
      } else if |value| > 1 {
        UnescapeDiffersExactly(value[2..]);
      } else {
        assert value == "\\";
      }
    }
  }

  lemma LoneBackslash()
    ensures Unescape("\\") == "\\" && Unescape("") == ""
  {
  }

  lemma UnescapeHead(c: char, rest: string)
    ensures Unescape(EscapedChar(c) + rest) == [c] + Unescape(rest)
  {
    var s := EscapedChar(c) + rest;
    if |EscapedChar(c)| == 2 {
      assert s[2..] == rest;
    } else {
      assert s[1..] == rest;
    }
  }

  lemma {:induction false} EscapeIsClean(value: string)
    ensures ';' !in Escape(value) && ' ' !in Escape(value) && !HasLineBreak(Escape(value))
  {
    if value != "" {
      EscapeIsClean(value[1..]);
    }
  }

  // ---------------------------------------------------------------------------
  // Reading back what was printed
  // ---------------------------------------------------------------------------

  lemma CutAt(a: string, c: char, b: string)
    requires c !in a
    ensures IndexOf(a + [c] + b, c, 0) == |a|
    ensures (a + [c] + b)[..|a|] == a && (a + [c] + b)[|a| + 1..] == b
  {
    IndexOfIs(a + [c] + b, c, |a|);
  }

  lemma CutNowhere(a: string, c: char)
    requires c !in a
    ensures IndexOf(a, c, 0) == |a| && a[..|a|] == a
  {
    IndexOfIs(a, c, |a|);
  }

  lemma PrintTagIsClean(tag: Tag)
    requires GoodKey(tag.key)
    ensures ';' !in PrintTag(tag) && ' ' !in PrintTag(tag) && !HasLineBreak(PrintTag(tag))
  {
    if tag.value.Some? {
      EscapeIsClean(tag.value.value);
    }
  }

  lemma {:induction false} PrintTagsIsClean(tags: seq<Tag>)
    requires forall i | 0 <= i < |tags| :: GoodKey(tags[i].key)
    ensures ' ' !in PrintTags(tags) && !HasLineBreak(PrintTags(tags))
  {
    hide PrintTag, GoodKey;
    if tags != [] {
      PrintTagIsClean(tags[0]);
      PrintTagsIsClean(tags[1..]);
    }
  }

  lemma ReadTag(tag: Tag)
    requires GoodKey(tag.key)
    ensures var raw := PrintTag(tag);
            var equals := IndexOf(raw, '=', 0);
            && raw[..equals] == tag.key
            && Unescape(if equals == |raw| then "" else raw[equals + 1..])
               == (if tag.value.None? then "" else tag.value.value)
  {
    hide Unescape, Escape;
    if tag.value.None? {
      assert PrintTag(tag) == tag.key;
      CutNowhere(tag.key, '=');
      UnescapeEnds("");
    } else {
      var v := Escape(tag.value.value);
      assert PrintTag(tag) == tag.key + ['='] + v;
      CutAt(tag.key, '=', v);
      UnescapeInvertsEscape(tag.value.value);
    }
  }

  lemma {:induction false} TagsReadBack(tags: seq<Tag>, base: map<string, string>)
    requires tags != [] && forall i | 0 <= i < |tags| :: GoodKey(tags[i].key)
    ensures ParseTags(PrintTags(tags), base) == Some(TagMap(tags, base))
  {
    hide Unescape, PrintTag, IndexOf;
    var raw := PrintTag(tags[0]);
    ReadTag(tags[0]);
    PrintTagIsClean(tags[0]);
    var value := if tags[0].value.None? then "" else tags[0].value.value;
    var base' := base[tags[0].key := value];
    if |tags| == 1 {
      assert PrintTags(tags) == raw;
      CutNowhere(raw, ';');
      assert TagMap(tags[1..], base') == base';
    } else {
      var rest := PrintTags(tags[1..]);
      assert PrintTags(tags) == raw + [';'] + rest;
      CutAt(raw, ';', rest);
      TagsReadBack(tags[1..], base');
    }
  }

  lemma SkipNothing(s: string)
    requires s == "" || s[0] != ' '
    ensures SkipSpaces(s) == s
  {
  }

  lemma {:induction false} ParametersReadBack(middle: seq<string>, trailing: Option<string>, sofar: seq<string>)
    requires forall i | 0 <= i < |middle| :: GoodMiddle(middle[i])
    requires |sofar| <= MAX_MIDDLE_PARAMETERS
    ensures var s := PrintParameters(middle, trailing);
            s != "" ==>
              s[0] == ' ' &&
              ParseParameters(s[1..], sofar)
              == if |sofar| + |middle| > MAX_MIDDLE_PARAMETERS then None
                 else Some(sofar + middle + (if trailing.None? then [] else [trailing.value]))
  {
    hide IndexOf, SkipSpaces;
    var s := PrintParameters(middle, trailing);
    if middle == [] {
      if trailing.Some? {
        assert s[1..] == ":" + trailing.value;
        SkipNothing(s[1..]);
        assert s[1..][1..] == trailing.value;
        assert sofar + middle == sofar;
      }
    } else {
      var first := middle[0];
      var rest := PrintParameters(middle[1..], trailing);
      assert s[1..] == first + rest;
      SkipNothing(s[1..]);
      if |sofar| < MAX_MIDDLE_PARAMETERS {
        ParametersReadBack(middle[1..], trailing, sofar + [first]);
      }
      assert sofar + middle == sofar + [first] + middle[1..];
      if rest == "" {
        CutNowhere(first, ' ');
        assert s[1..] == first;
        assert middle == [first] && trailing.None? by { NothingPrinted(middle[1..], trailing); }
      } else {
        assert first + rest == first + [' '] + rest[1..];
        CutAt(first, ' ', rest[1..]);
      }
    }
  }

  lemma AlnumIsPlain(s: string)
    requires AllAlnum(s)
    ensures ' ' !in s && !HasLineBreak(s) && (s != "" ==> s[0] != ':' && s[0] != '@')
    ensures AllAlnum(Upper(s)) && |Upper(s)| == |s|
  {
  }

  lemma CommandReadBack(w: Wire, tags: map<string, string>, prefix: string)
    requires Shaped(w)
    ensures ParseCommand(tags, prefix, PrintFromCommand(w))
            == if |w.middle| > MAX_MIDDLE_PARAMETERS then None
               else Some(IrcMessage(tags, prefix, Upper(w.command), Parameters(w)))
  {
    hide IndexOf, SkipSpaces, AllAlnum, Upper, HasLineBreak, GoodKey, GoodMiddle, ParseParameters, PrintParameters;
    var s := PrintFromCommand(w);
    AlnumIsPlain(w.command);
    SkipNothing(s);
    var rest := PrintParameters(w.middle, w.trailing);
    ParametersReadBack(w.middle, w.trailing, []);
    assert [] + w.middle == w.middle;
    if rest == "" {
      assert s == w.command;
      CutNowhere(w.command, ' ');
      assert Parameters(w) == [] by { NothingPrinted(w.middle, w.trailing); }
    } else {
      assert s == w.command + [' '] + rest[1..];
      CutAt(w.command, ' ', rest[1..]);
    }
  }

  lemma NothingPrinted(middle: seq<string>, trailing: Option<string>)
    requires PrintParameters(middle, trailing) == ""
    ensures middle == [] && trailing.None?
  {
  }

  lemma PrefixReadBack(w: Wire, tags: map<string, string>)
    requires Shaped(w)
    ensures ParsePrefix(tags, PrintFromPrefix(w))
            == if |w.middle| > MAX_MIDDLE_PARAMETERS then None
               else Some(IrcMessage(tags, if w.prefix.None? then "" else w.prefix.value, Upper(w.command), Parameters(w)))
  {
    hide IndexOf, SkipSpaces, AllAlnum, Upper, HasLineBreak, GoodKey, GoodMiddle, ParseCommand, PrintParameters;
    var s := PrintFromPrefix(w);
    AlnumIsPlain(w.command);
    if w.prefix.None? {
      CommandReadBack(w, tags, "");
      assert s == PrintFromCommand(w);
      SkipNothing(s);
    } else {
      var p := w.prefix.value;
      CommandReadBack(w, tags, p);
      assert s == (":" + p) + [' '] + PrintFromCommand(w);
      CutAt(":" + p, ' ', PrintFromCommand(w));
      SkipNothing(s);
      assert s[1..|p| + 1] == p;
    }
  }

  lemma {:induction false} PrintMiddleIsClean(middle: seq<string>)
    requires forall i | 0 <= i < |middle| :: GoodMiddle(middle[i])
    ensures !HasLineBreak(PrintMiddle(middle))
  {
    if middle != [] {
      PrintMiddleIsClean(middle[1..]);
    }
  }

  lemma PrintIsClean(w: Wire)
    requires Shaped(w)
    ensures !HasLineBreak(Print(w)) && Print(w) != ""
  {
    hide AllAlnum, GoodKey, GoodMiddle, PrintTags, PrintMiddle;
    AlnumIsPlain(w.command);
    PrintTagsIsClean(w.tags);
    PrintMiddleIsClean(w.middle);
  }

  /** Parsing inverts printing: every message is read back with exactly its meaning, unless
      it has more than 32 middle parameters or more than 8192 bytes. */
  lemma ParseInvertsPrint(w: Wire)
    requires Shaped(w)
    ensures ParseLine(Print(w)) == if |w.middle| > 32 || |Print(w)| > 8_192 then None else Some(Meaning(w))
  {
    hide IndexOf, AllAlnum, Upper, HasLineBreak, GoodKey, GoodMiddle, ParsePrefix, PrintFromCommand, PrintTags, ParseTags;
    var s := Print(w);
    PrintIsClean(w);
    if w.tags == [] {
      assert s == PrintFromPrefix(w);
      PrefixReadBack(w, map[]);
      AlnumIsPlain(w.command);
      assert PrintFromCommand(w)[0] == w.command[0] by { CommandFirst(w); }
      assert s[0] != '@';
    } else {
      var section := PrintTags(w.tags);
      assert s == ("@" + section) + [' '] + PrintFromPrefix(w);
      PrintTagsIsClean(w.tags);
      CutAt("@" + section, ' ', PrintFromPrefix(w));
      assert s[1..|section| + 1] == section;
      TagsReadBack(w.tags, map[]);
      PrefixReadBack(w, TagMap(w.tags, map[]));
    }
  }

  lemma CommandFirst(w: Wire)
    requires w.command != ""
    ensures PrintFromCommand(w) != "" && PrintFromCommand(w)[0] == w.command[0]
  {
  }

  /** The limit does not count a trailing parameter: a printed message is accepted with
      more than 32 parameters exactly when 32 are middle ones and there is a trailing one. */
  lemma ManyParametersExactly(w: Wire)
    requires Shaped(w) && |Print(w)| <= MAX_LINE_BYTES
    ensures var r := ParseLine(Print(w));
            r.Some? && |r.value.parameters| > MAX_MIDDLE_PARAMETERS
            <==> |w.middle| == MAX_MIDDLE_PARAMETERS && w.trailing.Some?
  {
    hide ParseLine, Shaped, Print;
    ParseInvertsPrint(w);
  }

  /** A command with n middle parameters and a trailing one. */
  function Crowded(n: nat): Wire {
    Wire([], None, "A", seq(n, _ => "x"), Some("y"))
  }

  lemma {:induction false} CrowdedLength(n: nat)
    ensures |PrintMiddle(seq(n, _ => "x"))| == 2 * n
  {
    if n > 0 {
      CrowdedLength(n - 1);
      assert seq(n, _ => "x")[1..] == seq(n - 1, _ => "x");
    }
  }

  /** So a line with 33 parameters is accepted, and one with 34 is not. */
  lemma CrowdedLines()
    ensures ParseLine(Print(Crowded(32))).Some? && |ParseLine(Print(Crowded(32))).value.parameters| == 33
    ensures ParseLine(Print(Crowded(33))) == None
  {
    hide ParseLine, PrintMiddle;
    CrowdedLength(32);
    CrowdedLength(33);
    assert Shaped(Crowded(32)) && Shaped(Crowded(33));
    ParseInvertsPrint(Crowded(32));
    ParseInvertsPrint(Crowded(33));
  }

  // ---------------------------------------------------------------------------
  // Everything the parser accepts is the meaning of a well-formed message
  // ---------------------------------------------------------------------------

  lemma PartIsClean(s: string, from: nat, to: nat)
    requires from <= to <= |s| && !HasLineBreak(s)
    ensures !HasLineBreak(s[from..to])
    ensures ' ' !in s ==> ' ' !in s[from..to]
  {
  }

  lemma RestIsClean(s: string, from: nat)
    requires from <= |s| && !HasLineBreak(s)
    ensures !HasLineBreak(s[from..])
    ensures ' ' !in s ==> ' ' !in s[from..]
  {
  }

  lemma {:induction false} SkipKeepsClean(s: string)
    requires !HasLineBreak(s)
    ensures !HasLineBreak(SkipSpaces(s))
    ensures SkipSpaces(s) == "" || SkipSpaces(s)[0] != ' '
  {
    if s != "" && s[0] == ' ' {
      SkipKeepsClean(s[1..]);
    }
  }

  lemma {:induction false} TagsRead(section: string, base: map<string, string>) returns (tags: seq<Tag>)
    requires !HasLineBreak(section) && ' ' !in section && ParseTags(section, base).Some?
    ensures tags != [] && forall i | 0 <= i < |tags| :: GoodKey(tags[i].key)
    ensures ParseTags(section, base) == Some(TagMap(tags, base))
    decreases |section|
  {
    hide Unescape, HasLineBreak, IndexOf, GoodKey, ParseTags, TagMap;
    var separator := IndexOf(section, ';', 0);
    var raw := section[..separator];
    assert section[0..] == section && section[0..separator] == raw;
    TagStep(section, 0, base);
    var equals := IndexOf(raw, '=', 0);
    var key := raw[..equals];
    PartIsClean(section, 0, separator);
    PartIsClean(raw, 0, equals);
    var value := if equals == |raw| then "" else raw[equals + 1..];
    var tag := Tag(key, Some(Unescape(value)));
    var base' := base[key := Unescape(value)];
    assert GoodKey(key) by { KeyIsGood(section, key); }
    if separator == |section| {
      tags := [tag];
      TagMapCons(tag, [], base);
    } else {
      RestIsClean(section, separator + 1);
      var more := TagsRead(section[separator + 1..], base');
      tags := [tag] + more;
      TagMapCons(tag, more, base);
    }
  }

  lemma TagMapCons(tag: Tag, more: seq<Tag>, base: map<string, string>)
    requires tag.value.Some?
    ensures TagMap([tag] + more, base) == TagMap(more, base[tag.key := tag.value.value])
    ensures TagMap([tag], base) == base[tag.key := tag.value.value]
  {
    assert ([tag] + more)[1..] == more;
    assert |[tag][1..]| == 0;
  }

  lemma KeyIsGood(section: string, key: string)
    requires key != "" && !HasLineBreak(key) && ' ' !in key && ';' !in key && '=' !in key
    ensures GoodKey(key)
  {
  }

  lemma {:induction false} ParametersRead(rest: string, sofar: seq<string>)
    returns (middle: seq<string>, trailing: Option<string>)
    requires !HasLineBreak(rest) && |sofar| <= MAX_MIDDLE_PARAMETERS && ParseParameters(rest, sofar).Some?
    ensures forall i | 0 <= i < |middle| :: GoodMiddle(middle[i])
    ensures |sofar| + |middle| <= MAX_MIDDLE_PARAMETERS
    ensures trailing.Some? ==> !HasLineBreak(trailing.value)
    ensures ParseParameters(rest, sofar)
            == Some(sofar + middle + (if trailing.None? then [] else [trailing.value]))
    decreases |rest|
  {
    hide HasLineBreak, SkipSpaces;
    var s := SkipSpaces(rest);
    SkipKeepsClean(rest);
    middle, trailing := [], None;
    if s == "" {
      assert sofar + middle + [] == sofar;
    } else if s[0] == ':' {
      trailing := Some(s[1..]);
      RestIsClean(s, 1);
      assert sofar + middle == sofar;
    } else {
      var end := IndexOf(s, ' ', 0);
      PartIsClean(s, 0, end);
      if end == |s| {
        middle := [s[..end]];
        assert sofar + middle + [] == sofar + [s[..end]];
      } else {
        RestIsClean(s, end + 1);
        var more, last := ParametersRead(s[end + 1..], sofar + [s[..end]]);
        middle, trailing := [s[..end]] + more, last;
        assert sofar + middle == sofar + [s[..end]] + more;
      }
    }
  }

  lemma {:induction false} UpperTwice(s: string)
    ensures Upper(Upper(s)) == Upper(s)
  {
  }

  lemma CommandRead(tags: seq<Tag>, prefix: Option<string>, rest: string) returns (w: Wire)
    requires forall i | 0 <= i < |tags| :: GoodKey(tags[i].key)
    requires prefix.Some? ==> prefix.value != "" && ' ' !in prefix.value && !HasLineBreak(prefix.value)
    requires !HasLineBreak(rest)
    requires ParseCommand(TagMap(tags, map[]), if prefix.None? then "" else prefix.value, rest).Some?
    ensures WellFormed(w)
    ensures ParseCommand(TagMap(tags, map[]), if prefix.None? then "" else prefix.value, rest) == Some(Meaning(w))
  {
    hide HasLineBreak, SkipSpaces, IndexOf, AllAlnum, Upper, GoodKey, GoodMiddle, ParseParameters, TagMap;
    var s := SkipSpaces(rest);
    SkipKeepsClean(rest);
    var end := IndexOf(s, ' ', 0);
    var command := Upper(s[..end]);
    UpperTwice(s[..end]);
    var middle: seq<string>, trailing: Option<string> := [], None;
    if end < |s| {
      RestIsClean(s, end + 1);
      middle, trailing := ParametersRead(s[end + 1..], []);
      assert [] + middle == middle;
    }
    w := Wire(tags, prefix, command, middle, trailing);
    assert Parameters(w) == middle + (if trailing.None? then [] else [trailing.value]);
  }

  lemma PrefixRead(tags: seq<Tag>, rest: string) returns (w: Wire)
    requires forall i | 0 <= i < |tags| :: GoodKey(tags[i].key)
    requires !HasLineBreak(rest) && ParsePrefix(TagMap(tags, map[]), rest).Some?
    ensures WellFormed(w) && ParsePrefix(TagMap(tags, map[]), rest) == Some(Meaning(w))
  {
    hide HasLineBreak, SkipSpaces, GoodKey, ParseCommand, TagMap, Meaning, WellFormed;
    var s := SkipSpaces(rest);
    SkipKeepsClean(rest);
    if s != "" && s[0] == ':' {
      var end := IndexOf(s, ' ', 0);
      PartIsClean(s, 1, end);
      RestIsClean(s, end + 1);
      w := CommandRead(tags, Some(s[1..end]), s[end + 1..]);
    } else {
      w := CommandRead(tags, None, s);
    }
  }

  /** Whatever line is accepted, its message is the meaning of a well-formed one;
      so printing that and parsing again gives the same message. */
  lemma AcceptedIsWellFormed(line: string) returns (w: Wire)
    requires ParseLine(line).Some?
    ensures WellFormed(w) && ParseLine(line) == Some(Meaning(w))
    ensures |Print(w)| <= MAX_LINE_BYTES ==> ParseLine(Print(w)) == ParseLine(line)
    ensures |ParseLine(line).value.parameters| <= MAX_MIDDLE_PARAMETERS + 1
    ensures |ParseLine(line).value.parameters| > MAX_MIDDLE_PARAMETERS
            <==> |w.middle| == MAX_MIDDLE_PARAMETERS && w.trailing.Some?
  {
    hide HasLineBreak, GoodKey, ParsePrefix, ParseTags, TagMap, Meaning, Shaped, Print;
    if line[0] == '@' {
      var end := IndexOf(line, ' ', 0);
      PartIsClean(line, 1, end);
      RestIsClean(line, end + 1);
      var tags := TagsRead(line[1..end], map[]);
      w := PrefixRead(tags, line[end + 1..]);
    } else {
      assert TagMap([], map[]) == map[] by { NoTags(); }
      w := PrefixRead([], line);
    }
    if |Print(w)| <= MAX_LINE_BYTES {
      ParseInvertsPrint(w);
    }
    FewParameters(w);
  }

  lemma NoTags()
    ensures TagMap([], map[]) == map[]
  {
  }

  lemma FewParameters(w: Wire)
    requires WellFormed(w)
    ensures |Meaning(w).parameters| <= MAX_MIDDLE_PARAMETERS + 1
    ensures |Meaning(w).parameters| > MAX_MIDDLE_PARAMETERS
            <==> |w.middle| == MAX_MIDDLE_PARAMETERS && w.trailing.Some?
  {
  }

  // ---------------------------------------------------------------------------
  // Lines the bot emits
  // ---------------------------------------------------------------------------

  predicate Legal(line: string) {
    line != "" && !HasLineBreak(line) && |line| <= MAX_OUTGOING_PAYLOAD_BYTES
  }

  function EncodeAll(lines: seq<string>): string
    requires forall i | 0 <= i < |lines| :: Legal(lines[i])
  {
    if lines == [] then "" else assert Legal(lines[0]); EncodeIrcLine(lines[0]).value + EncodeAll(lines[1..])
  }

  lemma {:induction false} EncodeAllJoins(lines: seq<string>)
    requires forall i | 0 <= i < |lines| :: Legal(lines[i])
    ensures EncodeAll(lines) == Joined(lines)
  {
    if lines != [] {
      EncodeAllJoins(lines[1..]);
    }
  }

  lemma NoBreakIsCrlfFree(s: string)
    requires !HasLineBreak(s)
    ensures CrlfFree(s)
  {
  }

  /** What was encoded line by line is received line by line, however the bytes are cut
      into reads; no cut is rejected. */
  lemma EncodedIsReceived(lines: seq<string>, chunks: seq<string>)
    requires forall i | 0 <= i < |lines| :: Legal(lines[i])
    requires Chunking(EncodeAll(lines), chunks)
    ensures Feed(chunks) == Ok(Frames(lines, ""))
  {
    hide Split, CrlfFree, Joined, EncodeAll, Feed, HasLineBreak;
    EncodeAllJoins(lines);
    forall i | 0 <= i < |lines|
      ensures CrlfFree(lines[i])
    {
      NoBreakIsCrlfFree(lines[i]);
    }
    assert CrlfFree("") by { EmptyFree(); }
    SplitInvertsJoin(lines, "");
    assert Joined(lines) + "" == Joined(lines);
    SafeIsAccepted(EncodeAll(lines), chunks);
  }

  /** A chat line is read back as PRIVMSG with the channel and the text. */
  lemma PrivmsgReadBack(channel: string, text: string)
    requires GoodMiddle("#" + channel) && channel != "" && channel[0] != '#'
    requires text != "" && !HasLineBreak(text) && |channel| + |text| <= 499
    ensures var r := MakePrivmsg(channel, text);
            && r.Ok? && |r.value| >= 2
            && r.value[|r.value| - 2..] == "\r\n"
            && ParseLine(r.value[..|r.value| - 2]) == Some(IrcMessage(map[], "", "PRIVMSG", ["#" + channel, text]))
  {
    hide ParseLine, WellFormed, HasLineBreak;
    var w := Wire([], None, "PRIVMSG", ["#" + channel], Some(text));
    var line := "PRIVMSG " + ("#" + channel) + " :" + text;
    assert PrintMiddle(w.middle) == " " + ("#" + channel) by { assert PrintMiddle(w.middle[1..]) == ""; }
    assert Print(w) == line;
    assert WellFormed(w) by { PrivmsgWellFormed(channel, text); }
    PrintIsClean(w);
    ParseInvertsPrint(w);
    assert Upper("PRIVMSG") == "PRIVMSG";
    assert Meaning(w) == IrcMessage(map[], "", "PRIVMSG", ["#" + channel, text]);
    assert !HasLineBreak(channel) by { RestIsClean("#" + channel, 1); assert ("#" + channel)[1..] == channel; }
    assert !HasLineBreak(line) && Print(w) == line;
    assert (line + "\r\n")[..|line|] == line;
  }

  lemma PrivmsgWellFormed(channel: string, text: string)
    requires GoodMiddle("#" + channel) && !HasLineBreak(text)
    ensures WellFormed(Wire([], None, "PRIVMSG", ["#" + channel], Some(text)))
  {
  }

  /** The answer to a PING is legal exactly when the parameter has at most 504 bytes, and
      then it is read back as PONG with exactly that parameter. */
  lemma PongReadBack(parameter: string)
    requires !HasLineBreak(parameter)
    ensures EncodeIrcLine("PONG :" + parameter).Ok? <==> |parameter| <= 504
    ensures |parameter| <= 504 ==>
              ParseLine("PONG :" + parameter) == Some(IrcMessage(map[], "", "PONG", [parameter]))
  {
    hide ParseLine;
    if |parameter| <= 504 {
      var w := Wire([], None, "PONG", [], Some(parameter));
      assert Print(w) == "PONG :" + parameter;
      ParseInvertsPrint(w);
      assert Upper("PONG") == "PONG";
      assert Meaning(w) == IrcMessage(map[], "", "PONG", [parameter]);
    }
  }
}
