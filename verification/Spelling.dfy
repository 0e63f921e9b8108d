/** What the searches and normalisations of the program accept, told by the characters:
    words that differ in letter case, padding, and parts of a text. */
module Spelling {
  import opened Basics
  import opened IrcText
  import opened IrcMessages
  import opened IrcRoundTrip
  import opened Configuration

  /** Is c the character l, or the capital of the small letter l? */
  predicate SameLetter(c: char, l: char) {
    c == l || ('A' <= c <= 'Z' && l as int == c as int - 'A' as int + 'a' as int)
  }

  /** s spells the word in any letter case. */
  predicate Spells(s: string, word: string) {
    |s| == |word| && forall i | 0 <= i < |s| :: SameLetter(s[i], word[i])
  }

  predicate NoCapitals(word: string) {
    forall i | 0 <= i < |word| :: !('A' <= word[i] <= 'Z')
  }

  lemma LowerIs(s: string, word: string)
    requires NoCapitals(word)
    ensures Lower(s) == word <==> Spells(s, word)
  {
    if Lower(s) == word {
      assert |s| == |word| && forall i | 0 <= i < |s| :: word[i] == ToLower(s[i]);
    }
  }

  lemma LowerHasNoCapitals(s: string)
    ensures NoCapitals(Lower(s))
  {
  }

  // ---------------------------------------------------------------------------
  // Parts of a text
  // ---------------------------------------------------------------------------

  /** The pattern is a contiguous part of the text. */
  ghost predicate HasPart(text: string, pattern: string) {
    exists a: string, b: string :: text == a + pattern + b
  }

  lemma ContainsIsPart(text: string, pattern: string)
    ensures Contains(text, pattern) <==> HasPart(text, pattern)
  {
    if Contains(text, pattern) {
      var i: nat :| i <= |text| && OccursAt(text, pattern, i);
      assert text == text[..i] + pattern + text[i + |pattern|..];
    }
    if HasPart(text, pattern) {
      var a: string, b: string :| text == a + pattern + b;
      assert text[|a|..|a| + |pattern|] == pattern;
      assert OccursAt(text, pattern, |a|);
    }
  }

  /** Some part of the text spells the word in any letter case. */
  ghost predicate HasWord(text: string, word: string) {
    exists a: string, w: string, b: string :: text == a + w + b && Spells(w, word)
  }

  lemma LowerContainsIsWord(text: string, word: string)
    requires NoCapitals(word)
    ensures Contains(Lower(text), word) <==> HasWord(text, word)
  {
    hide Lower, Spells;
    assert |Lower(text)| == |text| && forall i | 0 <= i < |text| :: Lower(text)[i] == ToLower(text[i]) by { LowerAt(text); }
    if Contains(Lower(text), word) {
      var i: nat :| i <= |text| && OccursAt(Lower(text), word, i);
      var w := text[i..i + |word|];
      LowerAt(w);
      assert Lower(w) == Lower(text)[i..i + |word|];
      LowerIs(w, word);
      assert text == text[..i] + w + text[i + |word|..];
    }
    if HasWord(text, word) {
      var a: string, w: string, b: string :| text == a + w + b && Spells(w, word);
      LowerIs(w, word);
      LowerAt(w);
      assert |w| == |word|;
      assert Lower(text)[|a|..|a| + |word|] == Lower(w);
      assert OccursAt(Lower(text), word, |a|);
    }
  }

  lemma LowerAt(s: string)
    ensures |Lower(s)| == |s| && forall i | 0 <= i < |s| :: Lower(s)[i] == ToLower(s[i])
  {
  }

  // ---------------------------------------------------------------------------
  // Padding
  // ---------------------------------------------------------------------------

  /** Space, tab, line feed, carriage return, vertical tab or form feed. */
  predicate Blank(c: char) {
    c as int in {32, 9, 10, 13, 11, 12}
  }

  predicate Padding(s: string) {
    forall i | 0 <= i < |s| :: Blank(s[i])
  }

  /** Neither end is blank. */
  predicate Tight(s: string) {
    s == "" || (!Blank(s[0]) && !Blank(s[|s| - 1]))
  }

  lemma BlankIsSpace(c: char)
    ensures IsSpace(c) <==> Blank(c)
  {
  }

  lemma {:induction false} TrimLeftTakes(a: string, s: string)
    requires Padding(a) && (s == "" || !Blank(s[0]))
    ensures TrimLeft(a + s) == s
  {
    if a == "" {
      assert a + s == s;
      if s != "" {
        BlankIsSpace(s[0]);
      }
    } else {
      BlankIsSpace(a[0]);
      assert (a + s)[0] == a[0] && (a + s)[1..] == a[1..] + s;
      TrimLeftTakes(a[1..], s);
    }
  }

  lemma {:induction false} TrimRightTakes(s: string, b: string)
    requires Padding(b) && (s == "" || !Blank(s[|s| - 1]))
    ensures TrimRight(s + b) == s
    decreases |b|
  {
    if b == "" {
      assert s + b == s;
      if s != "" {
        BlankIsSpace(s[|s| - 1]);
      }
    } else {
      var n := |b| - 1;
      BlankIsSpace(b[n]);
      assert (s + b)[|s| + n] == b[n] && (s + b)[..|s| + n] == s + b[..n];
      TrimRightTakes(s, b[..n]);
    }
  }

  lemma {:induction false} TrimLeftLeaves(s: string) returns (a: string)
    ensures Padding(a) && s == a + TrimLeft(s)
    ensures TrimLeft(s) == "" || !Blank(TrimLeft(s)[0])
  {
    a := "";
    if s != "" {
      BlankIsSpace(s[0]);
      if Blank(s[0]) {
        var rest := TrimLeftLeaves(s[1..]);
        a := [s[0]] + rest;
        assert s == [s[0]] + s[1..];
      }
    }
  }

  lemma {:induction false} TrimRightLeaves(s: string) returns (b: string)
    ensures Padding(b) && s == TrimRight(s) + b
    ensures TrimRight(s) == "" || !Blank(TrimRight(s)[|TrimRight(s)| - 1])
  {
    b := "";
    if s != "" {
      var n := |s| - 1;
      BlankIsSpace(s[n]);
      if Blank(s[n]) {
        var rest := TrimRightLeaves(s[..n]);
        b := rest + [s[n]];
        assert s == s[..n] + [s[n]];
      }
    }
  }

  /** Trimming takes all the padding and nothing else. */
  lemma TrimTakes(a: string, s: string, b: string)
    requires Padding(a) && Padding(b) && Tight(s)
    ensures Trim(a + s + b) == s
  {
    hide TrimLeft, TrimRight;
    if s == "" {
      assert a + s + b == (a + b) + "";
      TrimLeftTakes(a + b, "");
      TrimRightTakes("", "");
      assert "" + "" == "";
    } else {
      assert a + s + b == a + (s + b);
      TrimLeftTakes(a, s + b);
      TrimRightTakes(s, b);
    }
  }

  lemma TrimLeaves(s: string) returns (a: string, b: string)
    ensures Padding(a) && Padding(b) && Tight(Trim(s)) && s == a + Trim(s) + b
  {
    hide TrimLeft, TrimRight;
    a := TrimLeftLeaves(s);
    var t := TrimLeft(s);
    b := TrimRightLeaves(t);
    assert s == a + (TrimRight(t) + b) == a + TrimRight(t) + b;
    if TrimRight(t) != "" {
      assert t[0] == TrimRight(t)[0];
    }
  }

  // ---------------------------------------------------------------------------
  // Names
  // ---------------------------------------------------------------------------

  predicate NameChar(c: char) {
    'a' <= c <= 'z' || '0' <= c <= '9' || c == '_'
  }

  /** One to 25 small letters, digits and underscores. */
  predicate IsName(name: string) {
    1 <= |name| <= 25 && forall i | 0 <= i < |name| :: NameChar(name[i])
  }

  lemma NameIsLogin(name: string)
    ensures IsName(name) <==> ValidLogin(name)
    ensures IsName(name) ==> NoCapitals(name)
  {
  }

  /** The value is the name in any letter case, with any padding. */
  ghost predicate Names(value: string, name: string) {
    exists a: string, s: string, b: string ::
      value == a + s + b && Padding(a) && Padding(b) && Spells(s, name) && IsName(name)
  }

  lemma SpelledIsTight(s: string, name: string)
    requires Spells(s, name) && IsName(name)
    ensures Tight(s)
  {
  }

  /** Exactly what login normalisation accepts and gives. */
  lemma LoginExactly(value: string, name: string)
    ensures NormalizeLogin(value) == Ok(name) <==> Names(value, name)
  {
    hide Trim, Lower, Spells, Padding, IsName, ValidLogin;
    NameIsLogin(name);
    if NormalizeLogin(value) == Ok(name) {
      var a, b := TrimLeaves(value);
      LowerIs(Trim(value), name);
      assert value == a + Trim(value) + b && Spells(Trim(value), name);
    }
    if Names(value, name) {
      var a: string, s: string, b: string :|
        value == a + s + b && Padding(a) && Padding(b) && Spells(s, name) && IsName(name);
      SpelledIsTight(s, name);
      TrimTakes(a, s, b);
      LowerIs(s, name);
    }
  }

  /** The value names the channel, with or without the channel sign. */
  ghost predicate NamesChannel(value: string, name: string) {
    || Names(value, name)
    || exists a: string, rest: string :: value == a + "#" + rest && Padding(a) && Names(rest, name)
  }

  lemma TrimSame(value: string)
    ensures Trim(Trim(value)) == Trim(value)
  {
    hide Trim;
    var a, b := TrimLeaves(value);
    assert Padding("");
    TrimTakes("", Trim(value), "");
    assert "" + Trim(value) + "" == Trim(value);
  }

  lemma NormalizeTrimmed(value: string)
    ensures NormalizeLogin(Trim(value)) == NormalizeLogin(value)
  {
    hide Trim, Lower, ValidLogin;
    TrimSame(value);
  }

  lemma NamesPadded(value: string, b: string, name: string)
    requires Padding(b)
    ensures Names(value + b, name) <==> Names(value, name)
  {
    hide Padding, Spells, IsName;
    if Names(value, name) {
      var a: string, s: string, c: string :|
        value == a + s + c && Padding(a) && Padding(c) && Spells(s, name) && IsName(name);
      PaddingConcat(c, b);
      assert value + b == a + s + (c + b);
    }
    if Names(value + b, name) {
      var a: string, s: string, c: string :|
        value + b == a + s + c && Padding(a) && Padding(c) && Spells(s, name) && IsName(name);
      SpelledIsTight(s, name);
      SpelledIsLong(s, name);
      assert |a + s| <= |value| by { TightEndsBefore(value, b, a, s, c); }
      var d := value[|a + s|..];
      assert value[..|a + s|] == (value + b)[..|a + s|] == a + s;
      assert value == a + s + d;
      assert Padding(d) by { PaddingPart(c, d); assert c == d + b; }
    }
  }

  lemma SpelledIsLong(s: string, name: string)
    requires Spells(s, name) && IsName(name)
    ensures s != ""
  {
  }

  lemma TightEndsBefore(value: string, b: string, a: string, s: string, c: string)
    requires Padding(b) && value + b == a + s + c && s != "" && Tight(s)
    ensures |a + s| <= |value|
  {
    assert forall k | |value| <= k < |value + b| :: (value + b)[k] == b[k - |value|];
    assert (a + s + c)[|a + s| - 1] == s[|s| - 1];
  }

  lemma PaddingConcat(a: string, b: string)
    ensures Padding(a + b) <==> Padding(a) && Padding(b)
  {
    if Padding(a + b) {
      assert forall i | 0 <= i < |a| :: (a + b)[i] == a[i];
      assert forall i | 0 <= i < |b| :: (a + b)[|a| + i] == b[i];
    }
  }

  lemma PaddingPart(c: string, d: string)
    ensures Padding(c) && d <= c ==> Padding(d)
  {
  }

  /** Exactly what channel normalisation accepts and gives. */
  lemma ChannelExactly(value: string, name: string)
    ensures NormalizeChannel(value) == Ok(name) <==> NamesChannel(value, name)
  {
    hide Trim, NormalizeLogin, Names, Padding;
    var t := Trim(value);
    var a, b := TrimLeaves(value);
    forall a': string, rest': string | value == a' + "#" + rest' && Padding(a')
      ensures t != "" && t[0] == '#'
    {
      SignStaysFirst(value, a', rest');
    }
    if t != "" && t[0] == '#' {
      var rest := t[1..];
      LoginExactly(rest, name);
      NamesPadded(rest, b, name);
      assert value == a + "#" + (rest + b);
      NoNameStartsWithSign(value, a, rest + b, name);
      forall a': string, rest': string | value == a' + "#" + rest' && Padding(a')
        ensures rest' == rest + b
      {
        SameSign(a, rest + b, a', rest');
      }
    } else {
      LoginExactly(value, name);
      NormalizeTrimmed(value);
    }
  }

  lemma SameSign(a: string, rest: string, a': string, rest': string)
    requires a + "#" + rest == a' + "#" + rest' && Padding(a) && Padding(a')
    ensures rest' == rest
  {
    var v := a + "#" + rest;
    assert v[|a|] == '#' && forall k | 0 <= k < |a| :: v[k] == a[k];
    assert (a' + "#" + rest')[|a'|] == '#' && forall k | 0 <= k < |a'| :: (a' + "#" + rest')[k] == a'[k];
    assert |a| == |a'|;
    assert rest == v[|a| + 1..] && rest' == (a' + "#" + rest')[|a'| + 1..];
  }

  lemma SignStaysFirst(value: string, a: string, rest: string)
    requires value == a + "#" + rest && Padding(a)
    ensures Trim(value) != "" && Trim(value)[0] == '#'
  {
    hide TrimLeft, TrimRight;
    assert value == a + ("#" + rest);
    TrimLeftTakes(a, "#" + rest);
    var t := "#" + rest;
    var b := TrimRightLeaves(t);
    assert !Padding(t) by { assert !Blank(t[0]); }
    assert TrimRight(t) != "" by { assert TrimRight(t) == "" ==> t == b; }
    assert t[0] == TrimRight(t)[0];
  }

  lemma NoNameStartsWithSign(value: string, a: string, rest: string, name: string)
    requires value == a + "#" + rest && Padding(a)
    ensures !Names(value, name)
  {
    hide Trim, Lower, ValidLogin, Padding, Names;
    LoginExactly(value, name);
    SignStaysFirst(value, a, rest);
    SignIsNoName(Trim(value));
  }

  lemma SignIsNoName(t: string)
    requires t != "" && t[0] == '#'
    ensures !ValidLogin(Lower(t))
  {
    LowerAt(t);
    assert Lower(t)[0] == '#';
  }

  // ---------------------------------------------------------------------------
  // Tokens
  // ---------------------------------------------------------------------------

  predicate WordChar(c: char) {
    'a' <= c <= 'z' || 'A' <= c <= 'Z' || '0' <= c <= '9' || c == '_' || c == '-'
  }

  /** 10 to 499 letters, digits, underscores and hyphens, and not a placeholder. */
  predicate IsToken(bare: string) {
    && 10 <= |bare| <= 499 && (forall i | 0 <= i < |bare| :: WordChar(bare[i]))
    && bare != "replace_me" && bare != "your_user_access_token"
  }

  lemma TokenChars(bare: string)
    ensures AllTokenChars(bare) <==> forall i | 0 <= i < |bare| :: WordChar(bare[i])
    ensures AllTokenChars(bare) ==> !HasLineBreak(bare) && !("oauth:" <= bare)
    ensures AllTokenChars(bare) && bare != "" ==> !Blank(bare[0]) && !Blank(bare[|bare| - 1])
  {
    if AllTokenChars(bare) {
      forall i | 0 <= i < |bare|
        ensures WordChar(bare[i])
      {
        assert IsTokenChar(bare[i]);
      }
      assert "oauth:"[5] == ':';
      if |bare| > 5 {
        assert WordChar(bare[5]);
      }
    }
  }

  lemma PassLength(bare: string)
    requires !HasLineBreak(bare)
    ensures EncodeIrcLine("PASS " + ("oauth:" + bare)).Ok? <==> |bare| <= 499
  {
  }

  /** The value is the token, with or without its prefix and with any padding. */
  ghost predicate GivesToken(value: string, bare: string) {
    exists a: string, s: string, b: string ::
      value == a + s + b && Padding(a) && Padding(b) && (s == bare || s == "oauth:" + bare)
  }

  /** What is normalised once the padding is gone. */
  lemma GivenToken(given: string, value: string, bare: string)
    requires given == Trim(value) && (given == bare || given == "oauth:" + bare)
    ensures NormalizeOauthToken(value) == (if IsToken(bare) then Ok("oauth:" + bare) else Thrown)
            || "oauth:" <= bare || HasLineBreak(bare)
  {
    hide Trim, AllTokenChars, HasLineBreak, EncodeIrcLine, WordChar;
    TokenChars(bare);
    if given == "oauth:" + bare {
      assert "oauth:" <= given && given[6..] == bare;
      PrefixedIsClean(bare);
    }
    if !HasLineBreak(bare) {
      PassLength(bare);
    }
  }

  lemma PrefixedIsClean(bare: string)
    ensures HasLineBreak("oauth:" + bare) <==> HasLineBreak(bare)
  {
    assert !HasLineBreak("oauth:");
  }

  /** Exactly which values are accepted as tokens, and what for. */
  lemma TokenExactly(value: string, token: string)
    ensures NormalizeOauthToken(value) == Ok(token) <==>
            exists bare: string :: token == "oauth:" + bare && IsToken(bare) && GivesToken(value, bare)
  {
    hide Trim, AllTokenChars, HasLineBreak, EncodeIrcLine, WordChar, Padding, IsToken;
    if NormalizeOauthToken(value) == Ok(token) {
      TokenAccepted(value);
    }
    forall bare: string | token == "oauth:" + bare && IsToken(bare) && GivesToken(value, bare)
      ensures NormalizeOauthToken(value) == Ok(token)
    {
      TokenTaken(value, bare);
    }
  }

  lemma TokenAccepted(value: string)
    requires NormalizeOauthToken(value).Ok?
    ensures exists bare: string ::
              NormalizeOauthToken(value) == Ok("oauth:" + bare) && IsToken(bare) && GivesToken(value, bare)
  {
    hide Trim, AllTokenChars, HasLineBreak, EncodeIrcLine, WordChar, Padding;
    var given := Trim(value);
    var a, b := TrimLeaves(value);
    var bare := if "oauth:" <= given then given[6..] else given;
    assert "oauth:" <= given ==> given == "oauth:" + bare;
    TokenChars(bare);
    PassLength(bare);
    assert value == a + given + b;
    assert IsToken(bare) && GivesToken(value, bare);
  }

  lemma TokenTaken(value: string, bare: string)
    requires IsToken(bare) && GivesToken(value, bare)
    ensures NormalizeOauthToken(value) == Ok("oauth:" + bare)
  {
    hide Trim, AllTokenChars, HasLineBreak, EncodeIrcLine, WordChar, Padding, NormalizeOauthToken;
    var a: string, s: string, b: string :|
      value == a + s + b && Padding(a) && Padding(b) && (s == bare || s == "oauth:" + bare);
    TokenChars(bare);
    assert Tight(s) by { TokenIsTight(s, bare); }
    TrimTakes(a, s, b);
    GivenToken(s, value, bare);
  }

  lemma TokenIsTight(s: string, bare: string)
    requires bare != "" && !Blank(bare[0]) && !Blank(bare[|bare| - 1]) && (s == bare || s == "oauth:" + bare)
    ensures Tight(s)
  {
    assert s[|s| - 1] == bare[|bare| - 1] && (s != bare ==> s[0] == 'o');
  }

  // ---------------------------------------------------------------------------
  // The channel list
  // ---------------------------------------------------------------------------

  function CommaJoined(items: seq<string>): string {
    if items == [] then "" else items[0] + (if |items| == 1 then "" else "," + CommaJoined(items[1..]))
  }

  lemma OnePiece(item: string)
    requires ',' !in item
    ensures item != "" ==> Pieces(item) == [item]
    ensures Pieces(item + ",") == [item]
  {
    hide IndexOf;
    CutNowhere(item, ',');
    assert item + "," == item + [','] + "";
    CutAt(item, ',', "");
    NoPieces();
    assert [item] + [] == [item];
  }

  lemma FirstPiece(item: string, rest: string)
    requires ',' !in item
    ensures Pieces(item + "," + rest) == [item] + Pieces(rest)
  {
    hide IndexOf;
    assert item + "," + rest == item + [','] + rest;
    CutAt(item, ',', rest);
  }

  /** Any text is such a list in exactly one way, up to a comma at its end. */
  lemma {:induction false} PiecesAreItems(items: seq<string>)
    requires forall i | 0 <= i < |items| :: ',' !in items[i]
    requires items != [] ==> items[|items| - 1] != ""
    ensures Pieces(CommaJoined(items)) == items
    ensures Pieces(CommaJoined(items) + ",") == if items == [] then [""] else items
  {
    hide Pieces;
    NoPieces();
    if items == [] {
      OnePiece("");
      assert "" + "," == ",";
    } else if |items| == 1 {
      OnePiece(items[0]);
      assert items == [items[0]] && CommaJoined(items) == items[0] + "" == items[0];
    } else {
      var item, rest := items[0], CommaJoined(items[1..]);
      PiecesAreItems(items[1..]);
      assert items == [item] + items[1..];
      FirstPiece(item, rest);
      FirstPiece(item, rest + ",");
      assert CommaJoined(items) == item + "," + rest by { assert item + ("," + rest) == item + "," + rest; }
      assert item + "," + rest + "," == item + "," + (rest + ",");
    }
  }

  lemma NoPieces()
    ensures Pieces("") == []
  {
  }

  /** The channels that some items name. */
  ghost function Named(items: seq<string>): set<string> {
    set i | 0 <= i < |items| && NormalizeChannel(items[i]).Ok? :: NormalizeChannel(items[i]).value
  }

  ghost predicate IsNamed(value: string) {
    exists name :: NamesChannel(value, name)
  }

  ghost predicate AllNamed(items: seq<string>) {
    forall i | 0 <= i < |items| :: IsNamed(items[i])
  }

  lemma {:induction false} DistinctSize(channels: seq<string>)
    requires Distinct(channels)
    ensures |set c | c in channels| == |channels|
  {
    if channels != [] {
      var n := |channels| - 1;
      DistinctSize(channels[..n]);
      assert (set c | c in channels) == (set c | c in channels[..n]) + {channels[n]};
    }
  }

  lemma {:induction false} DeduplicatedExactly(items: seq<string>, channels: seq<string>)
    ensures Deduplicated(items, channels).Ok? <==> forall i | 0 <= i < |items| :: NormalizeChannel(items[i]).Ok?
  {
    hide NormalizeChannel;
    if items != [] {
      var c := NormalizeChannel(items[0]);
      if c.Ok? {
        DeduplicatedExactly(items[1..], if c.value in channels then channels else channels + [c.value]);
        assert forall i | 1 <= i < |items| :: items[i] == items[1..][i - 1];
        assert forall i | 0 <= i < |items| - 1 :: items[1..][i] == items[i + 1];
      }
    }
  }

  lemma NormalizedIsNamed(value: string)
    ensures NormalizeChannel(value).Ok? <==> IsNamed(value)
  {
    hide NormalizeChannel, NamesChannel;
    if NormalizeChannel(value).Ok? {
      ChannelExactly(value, NormalizeChannel(value).value);
    }
    forall name | NamesChannel(value, name)
      ensures NormalizeChannel(value).Ok?
    {
      ChannelExactly(value, name);
    }
  }

  lemma AllNamedExactly(items: seq<string>)
    ensures AllNamed(items) <==> forall i | 0 <= i < |items| :: NormalizeChannel(items[i]).Ok?
  {
    hide NormalizeChannel, IsNamed;
    forall i | 0 <= i < |items|
      ensures NormalizeChannel(items[i]).Ok? <==> IsNamed(items[i])
    {
      NormalizedIsNamed(items[i]);
    }
  }

  /** A list is accepted if and only if every item names a channel and there are 1 to 100
      different ones; the result has each of them once. */
  lemma ListExactly(items: seq<string>)
    requires forall i | 0 <= i < |items| :: ',' !in items[i]
    requires items != [] ==> items[|items| - 1] != ""
    ensures ReadChannels(CommaJoined(items)).Ok? <==> AllNamed(items) && 1 <= |Named(items)| <= 100
    ensures ReadChannels(CommaJoined(items)).Ok? ==>
              && Distinct(ReadChannels(CommaJoined(items)).value)
              && forall c :: c in ReadChannels(CommaJoined(items)).value <==> c in Named(items)
  {
    hide NormalizeChannel, NamesChannel, ValidLogin, Deduplicated, Pieces, CommaJoined;
    PiecesAreItems(items);
    DeduplicatedExactly(items, []);
    AllNamedExactly(items);
    if Deduplicated(items, []).Ok? {
      var r := Deduplicated(items, []).value;
      DeduplicatedIsSet(items, []);
      DistinctSize(r);
      assert |Named(items)| == |r| by { assert (set c | c in r) == Named(items); }
    }
  }
}
