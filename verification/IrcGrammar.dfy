/** The complete grammar of the parser: every way to write a message, with any spacing, any
    letter case of the command and any escapes; exactly these lines are accepted. */
module IrcGrammar {
  import opened Basics
  import opened IrcText
  import opened IrcMessages
  import opened IrcRoundTrip
  import opened Spelling
  import opened TwitchTexts

  function Blanks(n: nat): string {
    seq(n, _ => ' ')
  }

  /** How many more spaces there are than needed: before the prefix, the command, each middle
      parameter, the trailing one, and after the last middle one. */
  datatype Gaps = Gaps(prefix: nat, command: nat, middle: seq<nat>, trailing: nat, end: nat)

  function SpacedMiddle(middle: seq<string>, gaps: seq<nat>): string
    requires |gaps| == |middle|
  {
    if middle == [] then "" else " " + Blanks(gaps[0]) + middle[0] + SpacedMiddle(middle[1..], gaps[1..])
  }

  function SpacedEnd(trailing: Option<string>, more: nat, end: nat): string {
    if trailing.None? then Blanks(end) else " " + Blanks(more) + ":" + trailing.value
  }

  function SpacedFromCommand(w: Wire, g: Gaps): string
    requires |g.middle| == |w.middle|
  {
    w.command + (SpacedMiddle(w.middle, g.middle) + SpacedEnd(w.trailing, g.trailing, g.end))
  }

  /** A tag as it stands in the line, its value not yet unescaped. */
  datatype RawTag = RawTag(key: string, value: Option<string>)

  predicate GoodRaw(tag: RawTag) {
    && GoodKey(tag.key)
    && (tag.value.Some? ==> ';' !in tag.value.value && ' ' !in tag.value.value && !HasLineBreak(tag.value.value))
  }

  ghost predicate AllGood(tags: seq<RawTag>) {
    forall i | 0 <= i < |tags| :: GoodRaw(tags[i])
  }

  function RawText(tag: RawTag): string {
    tag.key + (if tag.value.None? then "" else "=" + tag.value.value)
  }

  function RawTexts(tags: seq<RawTag>): string {
    if tags == [] then ""
    else RawText(tags[0]) + (if |tags| == 1 then "" else ";" + RawTexts(tags[1..]))
  }

  function RawMap(tags: seq<RawTag>, base: map<string, string>): map<string, string> {
    if tags == [] then base
    else
      var value := if tags[0].value.None? then "" else Unescape(tags[0].value.value);
      RawMap(tags[1..], base[tags[0].key := value])
  }

  /** What the line means. */
  function RawMeaning(tags: seq<RawTag>, w: Wire): IrcMessage {
    IrcMessage(RawMap(tags, map[]), if w.prefix.None? then "" else w.prefix.value, Upper(w.command), Parameters(w))
  }

  function SpacedFromPrefix(w: Wire, g: Gaps): string
    requires |g.middle| == |w.middle|
  {
    (if w.prefix.None? then "" else ":" + w.prefix.value + " ") + Blanks(g.command) + SpacedFromCommand(w, g)
  }

  function Spaced(tags: seq<RawTag>, w: Wire, g: Gaps): string
    requires |g.middle| == |w.middle|
  {
    (if tags == [] then "" else "@" + RawTexts(tags) + " ") + Blanks(g.prefix) + SpacedFromPrefix(w, g)
  }

  /** The line writes the message of these tags and of w, which has no tags itself. */
  ghost predicate Writes(line: string, tags: seq<RawTag>, w: Wire, g: Gaps) {
    && AllGood(tags) && Shaped(w) && w.tags == [] && |g.middle| == |w.middle|
    && line == Spaced(tags, w, g)
  }

  // ---------------------------------------------------------------------------
  // What is written is read
  // ---------------------------------------------------------------------------

  lemma RawTagIsClean(tag: RawTag)
    requires GoodRaw(tag)
    ensures ';' !in RawText(tag) && ' ' !in RawText(tag) && !HasLineBreak(RawText(tag))
  {
  }

  lemma {:induction false} RawTagsAreClean(tags: seq<RawTag>)
    requires AllGood(tags)
    ensures ' ' !in RawTexts(tags) && !HasLineBreak(RawTexts(tags))
  {
    hide RawText, GoodRaw;
    if tags != [] {
      RawTagIsClean(tags[0]);
      RawTagsAreClean(tags[1..]);
    }
  }

  lemma ReadRawTag(tag: RawTag)
    requires GoodRaw(tag)
    ensures var raw := RawText(tag);
            var equals := IndexOf(raw, '=', 0);
            && raw[..equals] == tag.key
            && Unescape(if equals == |raw| then "" else raw[equals + 1..])
               == (if tag.value.None? then "" else Unescape(tag.value.value))
  {
    hide Unescape;
    if tag.value.None? {
      assert RawText(tag) == tag.key;
      CutNowhere(tag.key, '=');
      UnescapeEnds("");
    } else {
      assert RawText(tag) == tag.key + ['='] + tag.value.value;
      CutAt(tag.key, '=', tag.value.value);
    }
  }

  lemma {:induction false} RawTagsReadBack(tags: seq<RawTag>, base: map<string, string>)
    requires tags != [] && AllGood(tags)
    ensures ParseTags(RawTexts(tags), base) == Some(RawMap(tags, base))
  {
    hide Unescape, RawText, IndexOf, GoodRaw;
    var raw := RawText(tags[0]);
    ReadRawTag(tags[0]);
    RawTagIsClean(tags[0]);
    assert GoodKey(tags[0].key) by { GoodRawKey(tags[0]); }
    var value := if tags[0].value.None? then "" else Unescape(tags[0].value.value);
    var base' := base[tags[0].key := value];
    if |tags| == 1 {
      assert RawTexts(tags) == raw;
      CutNowhere(raw, ';');
      assert RawMap(tags[1..], base') == base';
    } else {
      var rest := RawTexts(tags[1..]);
      assert RawTexts(tags) == raw + [';'] + rest;
      CutAt(raw, ';', rest);
      RawTagsReadBack(tags[1..], base');
    }
  }

  lemma GoodRawKey(tag: RawTag)
    ensures GoodRaw(tag) ==> GoodKey(tag.key)
  {
  }

  lemma {:induction false} SkipBlanks(n: nat, s: string)
    ensures SkipSpaces(Blanks(n) + s) == SkipSpaces(s)
  {
    if n == 0 {
      assert Blanks(0) + s == s;
    } else {
      assert (Blanks(n) + s)[1..] == Blanks(n - 1) + s;
      SkipBlanks(n - 1, s);
    }
  }

  lemma SkipToWord(n: nat, s: string)
    requires s == "" || s[0] != ' '
    ensures SkipSpaces(Blanks(n) + s) == s
  {
    SkipBlanks(n, s);
    SkipNothing(s);
  }

  lemma ParseTrailing(rest: string, text: string, sofar: seq<string>)
    requires SkipSpaces(rest) == ":" + text
    ensures ParseParameters(rest, sofar) == Some(sofar + [text])
  {
    hide SkipSpaces, IndexOf;
    assert (":" + text)[1..] == text;
  }

  lemma ParseNothing(rest: string, sofar: seq<string>)
    requires SkipSpaces(rest) == ""
    ensures ParseParameters(rest, sofar) == Some(sofar)
  {
    hide SkipSpaces, IndexOf;
  }

  lemma EndReadBack(trailing: Option<string>, more: nat, end: nat, sofar: seq<string>)
    requires |sofar| <= 32
    ensures var s := SpacedEnd(trailing, more, end);
            s != "" ==>
              s[0] == ' '
              && ParseParameters(s[1..], sofar) == Some(sofar + (if trailing.None? then [] else [trailing.value]))
  {
    hide SkipSpaces, IndexOf, Blanks, ParseParameters;
    var s := SpacedEnd(trailing, more, end);
    if trailing.Some? {
      var rest := Blanks(more) + (":" + trailing.value);
      assert s == " " + rest && s[1..] == rest;
      SkipToWord(more, ":" + trailing.value);
      ParseTrailing(rest, trailing.value, sofar);
    } else if end > 0 {
      var rest := Blanks(end - 1) + "";
      OneMoreBlank(end - 1);
      assert s == " " + rest && s[1..] == rest;
      SkipToWord(end - 1, "");
      ParseNothing(rest, sofar);
      assert sofar + [] == sofar;
    } else {
      NoBlanks("");
      assert s == Blanks(0) + "" == "";
    }
  }

  lemma NoEnd(trailing: Option<string>, more: nat, end: nat)
    ensures SpacedEnd(trailing, more, end) == "" ==> trailing.None?
  {
  }

  lemma {:induction false} SpacedReadBack(middle: seq<string>, gaps: seq<nat>, trailing: Option<string>, more: nat,
                                          end: nat, sofar: seq<string>)
    requires |gaps| == |middle| && |sofar| <= 32
    requires forall i | 0 <= i < |middle| :: GoodMiddle(middle[i])
    ensures var s := SpacedMiddle(middle, gaps) + SpacedEnd(trailing, more, end);
            if s == "" then middle == [] && trailing.None?
            else
              s[0] == ' '
              && ParseParameters(s[1..], sofar)
                 == if |sofar| + |middle| > 32 then None
                    else Some(sofar + middle + (if trailing.None? then [] else [trailing.value]))
  {
    hide IndexOf, SkipSpaces, SpacedEnd;
    var tail := SpacedEnd(trailing, more, end);
    var s := SpacedMiddle(middle, gaps) + tail;
    NoEnd(trailing, more, end);
    if middle == [] {
      assert s == tail && sofar + middle == sofar;
      EndReadBack(trailing, more, end, sofar);
    } else {
      var first := middle[0];
      var rest := SpacedMiddle(middle[1..], gaps[1..]) + tail;
      assert s == " " + Blanks(gaps[0]) + first + rest;
      assert s[1..] == Blanks(gaps[0]) + (first + rest);
      assert first != "" && first[0] != ':' && ' ' !in first;
      SkipToWord(gaps[0], first + rest);
      if |sofar| < 32 {
        SpacedReadBack(middle[1..], gaps[1..], trailing, more, end, sofar + [first]);
      }
      assert sofar + middle == sofar + [first] + middle[1..];
      RestStarts(middle[1..], gaps[1..], trailing, more, end);
      FirstParameter(first, rest);
      assert (first + rest)[0] == first[0];
      if rest == "" {
        assert middle == [first];
        assert sofar + middle + [] == sofar + [first];
      }
    }
  }

  lemma RestStarts(middle: seq<string>, gaps: seq<nat>, trailing: Option<string>, more: nat, end: nat)
    requires |gaps| == |middle|
    ensures var s := SpacedMiddle(middle, gaps) + SpacedEnd(trailing, more, end);
            if s == "" then middle == [] && trailing.None? else s[0] == ' '
  {
    if middle == [] && trailing.None? {
      assert SpacedMiddle(middle, gaps) + SpacedEnd(trailing, more, end) == Blanks(end);
    }
  }

  /** Where a word ends in what follows. */
  lemma FirstParameter(first: string, rest: string)
    requires ' ' !in first && (rest == "" || rest[0] == ' ')
    ensures IndexOf(first + rest, ' ', 0) == |first| && (first + rest)[..|first|] == first
    ensures rest != "" ==> (first + rest)[|first| + 1..] == rest[1..]
  {
    if rest == "" {
      assert first + rest == first;
      CutNowhere(first, ' ');
    } else {
      assert first + rest == first + [' '] + rest[1..];
      CutAt(first, ' ', rest[1..]);
    }
  }

  lemma CommandSpaced(w: Wire, g: Gaps, more: nat, tags: map<string, string>, prefix: string)
    requires Shaped(w) && |g.middle| == |w.middle|
    ensures ParseCommand(tags, prefix, Blanks(more) + SpacedFromCommand(w, g))
            == if |w.middle| > 32 then None else Some(IrcMessage(tags, prefix, Upper(w.command), Parameters(w)))
  {
    hide IndexOf, SkipSpaces, AllAlnum, Upper, HasLineBreak, GoodKey, GoodMiddle, ParseParameters, SpacedMiddle, SpacedEnd;
    var rest := SpacedMiddle(w.middle, g.middle) + SpacedEnd(w.trailing, g.trailing, g.end);
    var s := SpacedFromCommand(w, g);
    AlnumIsPlain(w.command);
    SkipToWord(more, s);
    SpacedReadBack(w.middle, g.middle, w.trailing, g.trailing, g.end, []);
    FirstParameter(w.command, rest);
    assert [] + w.middle == w.middle;
    assert rest == "" ==> Parameters(w) == [];
  }

  lemma {:induction false} BlanksAdd(a: nat, b: nat, s: string)
    ensures Blanks(a) + (Blanks(b) + s) == Blanks(a + b) + s
  {
  }

  lemma PrefixSpaced(w: Wire, g: Gaps, tags: map<string, string>)
    requires Shaped(w) && |g.middle| == |w.middle|
    ensures ParsePrefix(tags, Blanks(g.prefix) + SpacedFromPrefix(w, g))
            == if |w.middle| > 32 then None
               else Some(IrcMessage(tags, if w.prefix.None? then "" else w.prefix.value, Upper(w.command), Parameters(w)))
  {
    hide IndexOf, SkipSpaces, AllAlnum, Upper, HasLineBreak, GoodKey, GoodMiddle, ParseCommand, SpacedFromCommand, Blanks;
    var rest := SpacedFromCommand(w, g);
    var line := Blanks(g.prefix) + SpacedFromPrefix(w, g);
    AlnumIsPlain(w.command);
    if w.prefix.None? {
      CommandStarts(w, g);
      BlanksAdd(g.prefix, g.command, rest);
      assert SpacedFromPrefix(w, g) == Blanks(g.command) + rest;
      SkipToWord(g.prefix + g.command, rest);
      CommandSpaced(w, g, 0, tags, "");
      NoBlanks(rest);
    } else {
      var p := w.prefix.value;
      var s := SpacedFromPrefix(w, g);
      assert s == (":" + p) + [' '] + (Blanks(g.command) + rest);
      CutAt(":" + p, ' ', Blanks(g.command) + rest);
      SkipToWord(g.prefix, s);
      assert s[1..|p| + 1] == p;
      CommandSpaced(w, g, g.command, tags, p);
    }
  }

  lemma NoBlanks(s: string)
    ensures Blanks(0) + s == s
  {
  }

  lemma CommandStarts(w: Wire, g: Gaps)
    requires w.command != "" && |g.middle| == |w.middle|
    ensures SpacedFromCommand(w, g) != "" && SpacedFromCommand(w, g)[0] == w.command[0]
  {
  }

  lemma {:induction false} SpacedMiddleIsClean(middle: seq<string>, gaps: seq<nat>)
    requires |gaps| == |middle| && forall i | 0 <= i < |middle| :: GoodMiddle(middle[i])
    ensures !HasLineBreak(SpacedMiddle(middle, gaps))
  {
    if middle != [] {
      SpacedMiddleIsClean(middle[1..], gaps[1..]);
    }
  }

  lemma BothClean(a: string, b: string)
    ensures HasLineBreak(a + b) <==> HasLineBreak(a) || HasLineBreak(b)
  {
  }

  lemma BlanksAreClean(n: nat)
    ensures !HasLineBreak(Blanks(n)) && !HasLineBreak(" ") && !HasLineBreak(":") && !HasLineBreak("@") && !HasLineBreak("")
  {
  }

  lemma SpacedEndIsClean(trailing: Option<string>, more: nat, end: nat)
    requires trailing.Some? ==> !HasLineBreak(trailing.value)
    ensures !HasLineBreak(SpacedEnd(trailing, more, end))
  {
    hide HasLineBreak, Blanks;
    BlanksAreClean(more);
    BlanksAreClean(end);
    if trailing.Some? {
      BothClean(" ", Blanks(more));
      BothClean(" " + Blanks(more), ":");
      BothClean(" " + Blanks(more) + ":", trailing.value);
    }
  }

  lemma SpacedFromCommandIsClean(w: Wire, g: Gaps)
    requires Shaped(w) && |g.middle| == |w.middle|
    ensures !HasLineBreak(SpacedFromCommand(w, g)) && SpacedFromCommand(w, g) != ""
  {
    hide HasLineBreak, AllAlnum, GoodKey, GoodMiddle, SpacedMiddle, SpacedEnd;
    AlnumIsPlain(w.command);
    SpacedMiddleIsClean(w.middle, g.middle);
    SpacedEndIsClean(w.trailing, g.trailing, g.end);
    BothClean(SpacedMiddle(w.middle, g.middle), SpacedEnd(w.trailing, g.trailing, g.end));
    BothClean(w.command, SpacedMiddle(w.middle, g.middle) + SpacedEnd(w.trailing, g.trailing, g.end));
  }

  lemma SpacedFromPrefixIsClean(w: Wire, g: Gaps)
    requires Shaped(w) && |g.middle| == |w.middle|
    ensures !HasLineBreak(SpacedFromPrefix(w, g)) && SpacedFromPrefix(w, g) != ""
  {
    hide HasLineBreak, AllAlnum, GoodKey, GoodMiddle, SpacedFromCommand, Blanks;
    SpacedFromCommandIsClean(w, g);
    BlanksAreClean(g.command);
    var prefix := if w.prefix.None? then "" else ":" + w.prefix.value + " ";
    if w.prefix.Some? {
      BothClean(":", w.prefix.value);
      BothClean(":" + w.prefix.value, " ");
    }
    BothClean(prefix, Blanks(g.command));
    BothClean(prefix + Blanks(g.command), SpacedFromCommand(w, g));
  }

  lemma SpacedIsClean(tags: seq<RawTag>, w: Wire, g: Gaps)
    requires AllGood(tags) && Shaped(w) && |g.middle| == |w.middle|
    ensures !HasLineBreak(Spaced(tags, w, g)) && Spaced(tags, w, g) != ""
  {
    hide HasLineBreak, AllAlnum, GoodKey, GoodMiddle, RawTexts, SpacedFromPrefix, Blanks, AllGood;
    RawTagsAreClean(tags);
    SpacedFromPrefixIsClean(w, g);
    BlanksAreClean(g.prefix);
    var section := if tags == [] then "" else "@" + RawTexts(tags) + " ";
    if tags != [] {
      BothClean("@", RawTexts(tags));
      BothClean("@" + RawTexts(tags), " ");
    }
    BothClean(section, Blanks(g.prefix));
    BothClean(section + Blanks(g.prefix), SpacedFromPrefix(w, g));
  }

  lemma SpacedStarts(w: Wire, g: Gaps)
    requires Shaped(w) && |g.middle| == |w.middle|
    ensures Spaced([], w, g) == Blanks(g.prefix) + SpacedFromPrefix(w, g)
    ensures Spaced([], w, g) != "" && Spaced([], w, g)[0] != '@'
  {
    hide AllAlnum, GoodMiddle, SpacedFromCommand;
    AlnumIsPlain(w.command);
    CommandStarts(w, g);
  }

  /** However a message is written, it is read with exactly its meaning, unless it has more
      than 32 middle parameters or more than 8192 bytes. */
  lemma WrittenIsRead(line: string, tags: seq<RawTag>, w: Wire, g: Gaps)
    requires Writes(line, tags, w, g)
    ensures ParseLine(line) == if |w.middle| > 32 || |line| > 8_192 then None else Some(RawMeaning(tags, w))
  {
    hide IndexOf, AllAlnum, Upper, HasLineBreak, GoodKey, GoodMiddle, ParsePrefix, RawTexts, ParseTags, SpacedFromPrefix,
      Blanks, AllGood;
    SpacedIsClean(tags, w, g);
    if tags == [] {
      SpacedStarts(w, g);
      PrefixSpaced(w, g, map[]);
    } else {
      var section := RawTexts(tags);
      var rest := Blanks(g.prefix) + SpacedFromPrefix(w, g);
      assert line == ("@" + section) + [' '] + rest;
      RawTagsAreClean(tags);
      CutAt("@" + section, ' ', rest);
      assert line[1..|section| + 1] == section;
      RawTagsReadBack(tags, map[]);
      PrefixSpaced(w, g, RawMap(tags, map[]));
    }
  }

  // ---------------------------------------------------------------------------
  // What is accepted is written
  // ---------------------------------------------------------------------------

  lemma {:induction false} SkipTakes(s: string) returns (n: nat)
    ensures s == Blanks(n) + SkipSpaces(s)
  {
    if s != "" && s[0] == ' ' {
      var k := SkipTakes(s[1..]);
      n := k + 1;
      assert s == [' '] + s[1..];
    } else {
      n := 0;
    }
  }

  lemma {:induction false} TagsWritten(section: string, base: map<string, string>) returns (tags: seq<RawTag>)
    requires !HasLineBreak(section) && ' ' !in section && ParseTags(section, base).Some?
    ensures tags != [] && AllGood(tags) && section == RawTexts(tags)
    decreases |section|
  {
    hide Unescape, HasLineBreak, IndexOf, GoodRaw, ParseTags, RawText, RawTexts, RawMap;
    var separator := IndexOf(section, ';', 0);
    var raw := section[..separator];
    assert section[0..] == section && section[0..separator] == raw;
    TagStep(section, 0, base);
    PartIsClean(section, 0, separator);
    var tag := TagWritten(raw);
    if separator == |section| {
      tags := [tag];
      RawTextsCons(tag, []);
      assert [tag] + [] == [tag] && section == raw;
    } else {
      RestIsClean(section, separator + 1);
      var equals := IndexOf(raw, '=', 0);
      var value := Unescape(if equals == |raw| then "" else raw[equals + 1..]);
      var more := TagsWritten(section[separator + 1..], base[raw[..equals] := value]);
      tags := [tag] + more;
      RawTextsCons(tag, more);
      assert section == raw + ";" + section[separator + 1..];
    }
  }

  lemma RawTextsCons(tag: RawTag, more: seq<RawTag>)
    ensures RawTexts([tag] + more) == if more == [] then RawText(tag) else RawText(tag) + ";" + RawTexts(more)
  {
    hide RawText;
    assert ([tag] + more)[1..] == more;
  }

  lemma TagWritten(raw: string) returns (tag: RawTag)
    requires !HasLineBreak(raw) && ' ' !in raw && ';' !in raw
    requires raw[..IndexOf(raw, '=', 0)] != ""
    ensures GoodRaw(tag) && raw == RawText(tag)
  {
    hide HasLineBreak;
    var equals := IndexOf(raw, '=', 0);
    PartIsClean(raw, 0, equals);
    if equals == |raw| {
      tag := RawTag(raw, None);
      assert raw[..equals] == raw;
    } else {
      RestIsClean(raw, equals + 1);
      tag := RawTag(raw[..equals], Some(raw[equals + 1..]));
      assert raw == raw[..equals] + ("=" + raw[equals + 1..]);
      assert raw[0..equals] == raw[..equals];
    }
  }

  lemma {:induction false} ParametersWritten(rest: string, sofar: seq<string>)
    returns (middle: seq<string>, gaps: seq<nat>, trailing: Option<string>, more: nat, end: nat)
    requires !HasLineBreak(rest) && |sofar| <= 32 && ParseParameters(rest, sofar).Some?
    ensures |gaps| == |middle| && |sofar| + |middle| <= 32
    ensures forall i | 0 <= i < |middle| :: GoodMiddle(middle[i])
    ensures trailing.Some? ==> !HasLineBreak(trailing.value)
    ensures " " + rest == SpacedMiddle(middle, gaps) + SpacedEnd(trailing, more, end)
    decreases |rest|
  {
    hide HasLineBreak, SkipSpaces, Blanks, SpacedMiddle, SpacedEnd, IndexOf;
    var s := SkipSpaces(rest);
    var n := SkipTakes(rest);
    SkipKeepsClean(rest);
    middle, gaps, trailing, more, end := [], [], None, n, 0;
    NothingSpaced();
    SpacedEnds(rest, s, n);
    if s == "" {
      end := n + 1;
    } else if s[0] == ':' {
      trailing := Some(s[1..]);
      RestIsClean(s, 1);
    } else {
      var e := IndexOf(s, ' ', 0);
      var first := s[..e];
      PartIsClean(s, 0, e);
      assert s[0..e] == first;
      if e == |s| {
        middle, gaps := [first], [n];
        SpacedCons(first, n, [], []);
        NoBlanksAtEnd();
        assert [first] + [] == [first] && [n] + [] == [n];
        assert s == first;
        Glue(rest, n, first, "", "");
      } else {
        RestIsClean(s, e + 1);
        var middle', gaps', t, m, k := ParametersWritten(s[e + 1..], sofar + [first]);
        middle, gaps, trailing, more, end := [first] + middle', [n] + gaps', t, m, k;
        SpacedCons(first, n, middle', gaps');
        assert s == first + (" " + s[e + 1..]);
        Glue(rest, n, first, SpacedMiddle(middle', gaps'), SpacedEnd(t, m, k));
      }
    }
  }

  lemma SpacedCons(first: string, n: nat, middle: seq<string>, gaps: seq<nat>)
    requires |gaps| == |middle|
    ensures SpacedMiddle([first] + middle, [n] + gaps) == " " + Blanks(n) + first + SpacedMiddle(middle, gaps)
  {
    hide Blanks;
    assert ([first] + middle)[1..] == middle && ([n] + gaps)[1..] == gaps;
  }

  lemma Glue(rest: string, n: nat, first: string, a: string, b: string)
    requires rest == Blanks(n) + (first + (a + b))
    ensures " " + rest == " " + Blanks(n) + first + a + b
  {
    hide Blanks;
  }

  /** The two ways in which the parameters end. */
  lemma SpacedEnds(rest: string, s: string, n: nat)
    requires rest == Blanks(n) + s
    ensures s == "" ==> " " + rest == "" + SpacedEnd(None, n, n + 1)
    ensures s != "" && s[0] == ':' ==> " " + rest == "" + SpacedEnd(Some(s[1..]), n, 0)
  {
    OneMoreBlank(n);
    if s != "" && s[0] == ':' {
      assert s == ":" + s[1..];
    }
  }

  lemma OneMoreBlank(n: nat)
    ensures " " + Blanks(n) == Blanks(n + 1)
  {
  }

  lemma NoBlanksAtEnd()
    ensures forall more :: SpacedEnd(None, more, 0) == ""
  {
  }

  lemma CommandWritten(tags: map<string, string>, prefix: Option<string>, rest: string) returns (w: Wire, g: Gaps)
    requires prefix.Some? ==> prefix.value != "" && ' ' !in prefix.value && !HasLineBreak(prefix.value)
    requires !HasLineBreak(rest)
    requires ParseCommand(tags, if prefix.None? then "" else prefix.value, rest).Some?
    ensures Shaped(w) && w.tags == [] && w.prefix == prefix && |w.middle| <= 32 && |g.middle| == |w.middle|
    ensures rest == Blanks(g.command) + SpacedFromCommand(w, g) && g.prefix == 0
  {
    hide HasLineBreak, SkipSpaces, IndexOf, AllAlnum, Upper, GoodMiddle, ParseParameters, Blanks, SpacedMiddle, SpacedEnd;
    var s := SkipSpaces(rest);
    var n := SkipTakes(rest);
    SkipKeepsClean(rest);
    var end := IndexOf(s, ' ', 0);
    var command := s[..end];
    CommandIsAlnum(command);
    UpperLength(command);
    if end < |s| {
      RestIsClean(s, end + 1);
      var middle, gaps, trailing, more, last := ParametersWritten(s[end + 1..], []);
      w, g := Wire([], prefix, command, middle, trailing), Gaps(0, n, gaps, more, last);
      assert s == command + (" " + s[end + 1..]);
    } else {
      w, g := Wire([], prefix, command, [], None), Gaps(0, n, [], 0, 0);
      NoBlanksAtEnd();
      NothingSpaced();
      assert s == command && command + "" == command && "" + "" == "";
    }
  }

  lemma NothingSpaced()
    ensures SpacedMiddle([], []) == ""
  {
  }

  lemma CommandIsAlnum(s: string)
    ensures AllAlnum(Upper(s)) ==> AllAlnum(s)
  {
    CommandCharsAre(s);
  }

  lemma PrefixWritten(tags: map<string, string>, rest: string) returns (w: Wire, g: Gaps)
    requires !HasLineBreak(rest) && ParsePrefix(tags, rest).Some?
    ensures Shaped(w) && w.tags == [] && |w.middle| <= 32 && |g.middle| == |w.middle|
    ensures rest == Blanks(g.prefix) + SpacedFromPrefix(w, g)
  {
    hide HasLineBreak, SkipSpaces, ParseCommand, Shaped, Blanks, SpacedFromCommand;
    var s := SkipSpaces(rest);
    var n := SkipTakes(rest);
    SkipKeepsClean(rest);
    if s != "" && s[0] == ':' {
      var end := IndexOf(s, ' ', 0);
      PartIsClean(s, 1, end);
      RestIsClean(s, end + 1);
      assert s == ":" + s[1..end] + " " + s[end + 1..];
      var h: Gaps;
      w, h := CommandWritten(tags, Some(s[1..end]), s[end + 1..]);
      g := h.(prefix := n);
      SameCommand(w, h, n);
      assert s == ":" + s[1..end] + " " + Blanks(g.command) + SpacedFromCommand(w, g);
    } else {
      var h: Gaps;
      w, h := CommandWritten(tags, None, s);
      g := h.(prefix := n);
      SameCommand(w, h, n);
      assert s == "" + Blanks(g.command) + SpacedFromCommand(w, g);
    }
  }

  lemma SameCommand(w: Wire, g: Gaps, n: nat)
    requires |g.middle| == |w.middle|
    ensures SpacedFromCommand(w, g.(prefix := n)) == SpacedFromCommand(w, g)
  {
  }

  lemma AcceptedIsWritten(line: string) returns (tags: seq<RawTag>, w: Wire, g: Gaps)
    requires ParseLine(line).Some?
    ensures Writes(line, tags, w, g) && |w.middle| <= 32 && |line| <= 8_192
  {
    hide HasLineBreak, ParsePrefix, ParseTags, Shaped, Blanks, SpacedFromPrefix, AllGood, RawTexts;
    if line[0] == '@' {
      var end := IndexOf(line, ' ', 0);
      PartIsClean(line, 1, end);
      RestIsClean(line, end + 1);
      tags := TagsWritten(line[1..end], map[]);
      w, g := PrefixWritten(ParseTags(line[1..end], map[]).value, line[end + 1..]);
      assert line == "@" + line[1..end] + " " + line[end + 1..];
      assert line == "@" + RawTexts(tags) + " " + Blanks(g.prefix) + SpacedFromPrefix(w, g);
    } else {
      tags := [];
      assert AllGood([]) by { NoneIsGood(); }
      w, g := PrefixWritten(map[], line);
      assert line == "" + Blanks(g.prefix) + SpacedFromPrefix(w, g);
    }
  }

  lemma NoneIsGood()
    ensures AllGood([])
  {
  }

  /** Exactly which lines are accepted, and for which message. */
  lemma AcceptedExactly(line: string, m: IrcMessage)
    ensures ParseLine(line) == Some(m) <==>
            && |line| <= 8_192
            && exists tags, w, g :: Writes(line, tags, w, g) && |w.middle| <= 32 && m == RawMeaning(tags, w)
  {
    hide ParseLine, Writes, RawMeaning;
    if ParseLine(line).Some? {
      var tags, w, g := AcceptedIsWritten(line);
      WrittenIsRead(line, tags, w, g);
    }
    forall tags, w, g | Writes(line, tags, w, g) && |w.middle| <= 32 && |line| <= 8_192
      ensures ParseLine(line) == Some(RawMeaning(tags, w))
    {
      WrittenIsRead(line, tags, w, g);
    }
  }

  // ---------------------------------------------------------------------------
  // Commands
  // ---------------------------------------------------------------------------

  predicate NoSmallLetters(word: string) {
    forall i | 0 <= i < |word| :: !('a' <= word[i] <= 'z')
  }

  lemma UpperIs(s: string, word: string)
    ensures Upper(s) == word <==> NoSmallLetters(word) && Spells(word, s)
  {
    if Upper(s) == word {
      assert |s| == |word| && forall i | 0 <= i < |s| :: word[i] == ToUpper(s[i]);
    }
  }

  predicate CommandChar(c: char) {
    '0' <= c <= '9' || 'a' <= c <= 'z' || 'A' <= c <= 'Z'
  }

  lemma CommandCharsAre(s: string)
    ensures AllAlnum(Upper(s)) <==> forall i | 0 <= i < |s| :: CommandChar(s[i])
  {
    if AllAlnum(Upper(s)) {
      forall i | 0 <= i < |s|
        ensures CommandChar(s[i])
      {
        assert IsAlnum(Upper(s)[i]);
      }
    }
  }

  /** A word alone is a message if and only if it has letters and digits only; its command is
      the word in capitals, so servers may send commands in any letter case. */
  lemma BareCommand(s: string, command: string)
    requires s != "" && ' ' !in s && !HasLineBreak(s) && s[0] != ':' && s[0] != '@' && |s| <= 8_192
    ensures ParseLine(s) == Some(IrcMessage(map[], "", command, []))
            <==> && (forall i | 0 <= i < |s| :: CommandChar(s[i]))
                 && NoSmallLetters(command) && Spells(command, s)
    ensures ParseLine(s).None? <==> exists i :: 0 <= i < |s| && !CommandChar(s[i])
  {
    hide IndexOf, SkipSpaces, Upper, AllAlnum, CommandChar, NoSmallLetters, Spells, ParseParameters;
    UpperIs(s, command);
    CommandCharsAre(s);
    SkipNothing(s);
    CutNowhere(s, ' ');
    assert Upper(s) != "" by { UpperLength(s); }
  }

  lemma UpperLength(s: string)
    ensures |Upper(s)| == |s|
  {
  }

  /** A line with a carriage return or a line feed is never accepted, and encoding accepts
      exactly the texts of 1 to 510 bytes without them and appends CRLF. */
  lemma LinesAreOneLine(line: string)
    ensures ParseLine(line).Some? ==> OneLine(line) && 1 <= |line| <= 8_192
    ensures EncodeIrcLine(line) == if OneLine(line) && 1 <= |line| <= 510 then Ok(line + "\r\n") else Thrown
  {
    hide ParsePrefix, ParseTags;
    assert HasLineBreak(line) <==> !OneLine(line);
  }
}
