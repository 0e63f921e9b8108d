/** Incremental framing of the byte stream. A string stands for bytes, one
    character for each. */
module Framing {
  import opened Basics

  const MAX_LINE_BYTES: nat := 8_192
  const MAX_BUFFER_BYTES: nat := 65_536
  const READ_BUFFER_BYTES: nat := 4_096

  predicate CrlfAt(s: string, i: int) {
    0 <= i && i + 1 < |s| && s[i] == '\r' && s[i + 1] == '\n'
  }

  predicate CrlfFree(s: string) {
    forall i | 0 <= i < |s| :: !CrlfAt(s, i)
  }

  /** The position of the first CRLF. */
  function FindCrlf(s: string, from: nat := 0): (r: Option<nat>)
    requires from <= |s|
    ensures r.Some? ==> from <= r.value && CrlfAt(s, r.value)
    ensures forall i | from <= i < (if r.Some? then r.value else |s|) :: !CrlfAt(s, i)
    decreases |s| - from
  {
    if from == |s| then None
    else if CrlfAt(s, from) then Some(from)
    else FindCrlf(s, from + 1)
  }

  /** The buffer after the loop of a push, and the lines emitted unless it threw. */
  function Cut(buffer: string): (string, Result<seq<string>>)
    decreases |buffer|
  {
    match FindCrlf(buffer)
    case None => (buffer, if |buffer| > MAX_LINE_BYTES then Thrown else Ok([]))
    case Some(delimiter) =>
      if delimiter > MAX_LINE_BYTES then (buffer, Thrown)
      else
        var (rest, lines) := Cut(buffer[delimiter + 2..]);
        (rest, if lines.Ok? then Ok([buffer[..delimiter]] + lines.value) else Thrown)
  }

  function Pushed(buffer: string, bytes: string): (string, Result<seq<string>>) {
    if |buffer| + |bytes| > MAX_BUFFER_BYTES then (buffer, Thrown) else Cut(buffer + bytes)
  }

  class IrcStreamAssembler {
    var buffer: string

    constructor ()
      ensures buffer == ""
    {
      buffer := "";
    }

    method Push(bytes: string) returns (r: Result<seq<string>>)
      modifies this
      ensures (buffer, r) == Pushed(old(buffer), bytes)
    {
      if |buffer| + |bytes| > MAX_BUFFER_BYTES {
        return Thrown;
      }
      buffer := buffer + bytes;
      ghost var whole := Cut(buffer);
      var lines: seq<string> := [];
      while true
        invariant Cut(buffer).0 == whole.0
        invariant Cut(buffer).1.Ok? <==> whole.1.Ok?
        invariant whole.1.Ok? ==> whole.1.value == lines + Cut(buffer).1.value
        decreases |buffer|
      {
        var delimiter := FindCrlf(buffer);
        if delimiter.None? {
          if |buffer| > MAX_LINE_BYTES {
            return Thrown;
          }
          assert lines + [] == lines;
          break;
        }
        if delimiter.value > MAX_LINE_BYTES {
          return Thrown;
        }
        lines := lines + [buffer[..delimiter.value]];
        buffer := buffer[delimiter.value + 2..];
      }
      return Ok(lines);
    }
  }

  // ---------------------------------------------------------------------------
  // The one-shot split
  // ---------------------------------------------------------------------------

  datatype Frames = Frames(lines: seq<string>, tail: string)

  function Split(s: string): Frames
    decreases |s|
  {
    match FindCrlf(s)
    case None => Frames([], s)
    case Some(i) =>
      var rest := Split(s[i + 2..]);
      Frames([s[..i]] + rest.lines, rest.tail)
  }

  function Joined(lines: seq<string>): string {
    if lines == [] then "" else lines[0] + "\r\n" + Joined(lines[1..])
  }

  ghost predicate AllFree(lines: seq<string>) {
    forall i | 0 <= i < |lines| :: CrlfFree(lines[i])
  }

  predicate Short(lines: seq<string>, limit: nat) {
    forall i | 0 <= i < |lines| :: |lines[i]| <= limit
  }

  /** Joining the lines with CRLF and adding the tail gives back the bytes. */
  lemma {:induction false} JoinInvertsSplit(s: string)
    ensures Joined(Split(s).lines) + Split(s).tail == s
    ensures AllFree(Split(s).lines) && CrlfFree(Split(s).tail)
    decreases |s|
  {
    hide Split, CrlfFree;
    var cut := FirstLine(s);
    if cut.None? {
      SplitWhole(s);
    } else {
      var line, after := s[..cut.value], s[cut.value + 2..];
      SplitCons(line, after);
      JoinInvertsSplit(after);
      assert ([line] + Split(after).lines)[1..] == Split(after).lines;
    }
  }

  lemma FirstCrlf(line: string, rest: string)
    requires CrlfFree(line)
    ensures FindCrlf(line + "\r\n" + rest) == Some(|line|)
  {
    var s := line + "\r\n" + rest;
    assert CrlfAt(s, |line|);
    assert forall i | 0 <= i < |line| :: CrlfAt(s, i) ==> CrlfAt(line, i);
  }

  lemma SplitCons(line: string, rest: string)
    requires CrlfFree(line)
    ensures Split(line + "\r\n" + rest) == Frames([line] + Split(rest).lines, Split(rest).tail)
  {
    var s := line + "\r\n" + rest;
    FirstCrlf(line, rest);
    assert s[..|line|] == line && s[|line| + 2..] == rest;
  }

  lemma SplitWhole(s: string)
    requires CrlfFree(s)
    ensures Split(s) == Frames([], s)
  {
  }

  /** Either the stream is one unfinished tail or it starts with a line. */
  lemma FirstLine(s: string) returns (cut: Option<nat>)
    ensures cut.None? ==> CrlfFree(s)
    ensures cut.Some? ==>
              && cut.value + 2 <= |s| && CrlfFree(s[..cut.value])
              && s == s[..cut.value] + "\r\n" + s[cut.value + 2..]
  {
    cut := FindCrlf(s);
    if cut.Some? {
      var line := s[..cut.value];
      assert forall i | 0 <= i < |line| :: CrlfAt(line, i) ==> CrlfAt(s, i);
    }
  }

  /** The decomposition into CRLF-free lines and a CRLF-free tail is unique. */
  lemma {:induction false} SplitInvertsJoin(lines: seq<string>, tail: string)
    requires AllFree(lines) && CrlfFree(tail)
    ensures Split(Joined(lines) + tail) == Frames(lines, tail)
  {
    hide Split;
    var s := Joined(lines) + tail;
    if lines != [] {
      var rest := Joined(lines[1..]) + tail;
      assert s == lines[0] + "\r\n" + rest;
      SplitCons(lines[0], rest);
      SplitInvertsJoin(lines[1..], tail);
    } else {
      SplitWhole(tail);
      assert s == tail;
    }
  }

  lemma {:induction false} JoinedConcat(a: seq<string>, b: seq<string>)
    ensures Joined(a + b) == Joined(a) + Joined(b)
  {
    if a == [] {
      assert a + b == b;
    } else {
      assert (a + b)[1..] == a[1..] + b;
      JoinedConcat(a[1..], b);
    }
  }

  /** Splitting can be resumed from the tail. */
  lemma SplitResumes(s: string, more: string)
    ensures Split(s + more).lines == Split(s).lines + Split(Split(s).tail + more).lines
    ensures Split(s + more).tail == Split(Split(s).tail + more).tail
  {
    hide Split, CrlfFree, Joined;
    var first := Split(s);
    var second := Split(first.tail + more);
    JoinInvertsSplit(s);
    JoinInvertsSplit(first.tail + more);
    JoinedConcat(first.lines, second.lines);
    calc {
      s + more;
      Joined(first.lines) + first.tail + more;
      Joined(first.lines) + (first.tail + more);
      Joined(first.lines) + (Joined(second.lines) + second.tail);
      Joined(first.lines) + Joined(second.lines) + second.tail;
      Joined(first.lines + second.lines) + second.tail;
    }
    SplitInvertsJoin(first.lines + second.lines, second.tail);
  }

  /** The loop of a push succeeds exactly when every line and the tail are short
      enough, and then it is the one-shot split. */
  lemma {:induction false} CutIsSplit(buffer: string)
    ensures Cut(buffer).1.Ok? <==>
            Short(Split(buffer).lines, MAX_LINE_BYTES) && |Split(buffer).tail| <= MAX_LINE_BYTES
    ensures Cut(buffer).1.Ok? ==>
              Cut(buffer).1.value == Split(buffer).lines && Cut(buffer).0 == Split(buffer).tail
    decreases |buffer|
  {
    var r := FindCrlf(buffer);
    if r.Some? {
      var rest := Split(buffer[r.value + 2..]).lines;
      CutIsSplit(buffer[r.value + 2..]);
      ShortCons(buffer[..r.value], rest, MAX_LINE_BYTES);
    }
  }

  /** Exactly when a push succeeds: at most 65536 bytes are buffered, and then no line and
      no tail is longer than 8192 bytes; its result is the one-shot split. */
  lemma PushExactly(buffer: string, bytes: string)
    ensures var frames := Split(buffer + bytes);
            && (Pushed(buffer, bytes).1.Ok? <==>
                  |buffer| + |bytes| <= 65_536 && Short(frames.lines, 8_192) && |frames.tail| <= 8_192)
            && (Pushed(buffer, bytes).1.Ok? ==> Pushed(buffer, bytes) == (frames.tail, Ok(frames.lines)))
  {
    hide Cut, Split;
    CutIsSplit(buffer + bytes);
  }

  lemma ShortCons(line: string, rest: seq<string>, limit: nat)
    ensures Short([line] + rest, limit) <==> |line| <= limit && Short(rest, limit)
  {
    ShortConcat([line], rest, limit);
    assert [line][0] == line;
  }

  lemma ShortConcat(a: seq<string>, b: seq<string>, limit: nat)
    ensures Short(a + b, limit) <==> Short(a, limit) && Short(b, limit)
  {
    if Short(a + b, limit) {
      forall i | 0 <= i < |a|
        ensures |a[i]| <= limit
      {
        assert (a + b)[i] == a[i];
      }
      forall i | 0 <= i < |b|
        ensures |b[i]| <= limit
      {
        assert (a + b)[|a| + i] == b[i];
      }
    }
  }

  // ---------------------------------------------------------------------------
  // Any fragmentation
  // ---------------------------------------------------------------------------

  function Concat(chunks: seq<string>): string {
    if chunks == [] then "" else Concat(chunks[..|chunks| - 1]) + chunks[|chunks| - 1]
  }

  /** Pushing the chunks one after another into a new assembler, up to the first throw. */
  function Feed(chunks: seq<string>): Result<Frames> {
    if chunks == [] then Ok(Frames([], ""))
    else
      var before := Feed(chunks[..|chunks| - 1]);
      if before.Thrown? then Thrown
      else
        var (buffer, lines) := Pushed(before.value.tail, chunks[|chunks| - 1]);
        if lines.Thrown? then Thrown else Ok(Frames(before.value.lines + lines.value, buffer))
  }

  /** Fragmentation independence: whenever all pushes succeed, the emitted lines and the
      final buffer are the one-shot split of the whole stream. */
  lemma {:induction false} FeedIsSplit(chunks: seq<string>)
    requires Feed(chunks).Ok?
    ensures Feed(chunks).value == Split(Concat(chunks))
    ensures Joined(Feed(chunks).value.lines) + Feed(chunks).value.tail == Concat(chunks)
  {
    if chunks != [] {
      var front, last := chunks[..|chunks| - 1], chunks[|chunks| - 1];
      FeedIsSplit(front);
      var tail := Feed(front).value.tail;
      CutIsSplit(tail + last);
      SplitResumes(Concat(front), last);
    }
    JoinInvertsSplit(Concat(chunks));
  }

  ghost predicate ReadSized(chunks: seq<string>) {
    forall i | 0 <= i < |chunks| :: |chunks[i]| <= READ_BUFFER_BYTES
  }

  /** After a successful push the tail is bounded and CRLF-free; hence a read never
      meets the limit on the whole buffer. */
  lemma {:induction false} FeedBounds(chunks: seq<string>)
    requires Feed(chunks).Ok?
    ensures |Feed(chunks).value.tail| <= MAX_LINE_BYTES && CrlfFree(Feed(chunks).value.tail)
    ensures Short(Feed(chunks).value.lines, MAX_LINE_BYTES)
    ensures |Feed(chunks).value.tail| + READ_BUFFER_BYTES <= MAX_BUFFER_BYTES
  {
    if chunks != [] {
      var front, last := chunks[..|chunks| - 1], chunks[|chunks| - 1];
      FeedBounds(front);
      CutIsSplit(Feed(front).value.tail + last);
      JoinInvertsSplit(Feed(front).value.tail + last);
      ShortConcat(Feed(front).value.lines, Split(Feed(front).value.tail + last).lines, MAX_LINE_BYTES);
    }
  }

  /** Every tail seen at a chunk boundary is short. */
  ghost predicate TailsShort(chunks: seq<string>) {
    forall k | 0 <= k <= |chunks| :: |Split(Concat(chunks[..k])).tail| <= MAX_LINE_BYTES
  }

  /** Exactly when reads of a stream in these chunks are all accepted. */
  lemma {:induction false} FeedSucceeds(chunks: seq<string>)
    requires ReadSized(chunks)
    ensures Feed(chunks).Ok? <==> Short(Split(Concat(chunks)).lines, MAX_LINE_BYTES) && TailsShort(chunks)
  {
    assert chunks[..|chunks|] == chunks;
    if chunks != [] {
      var n := |chunks| - 1;
      var front, last := chunks[..n], chunks[n];
      FeedSucceeds(front);
      SplitResumes(Concat(front), last);
      TailsShortSnoc(chunks);
      ShortConcat(Split(Concat(front)).lines, Split(Split(Concat(front)).tail + last).lines, MAX_LINE_BYTES);
      if Feed(front).Ok? {
        FeedIsSplit(front);
        FeedBounds(front);
        CutIsSplit(Feed(front).value.tail + last);
      }
    }
  }

  lemma TailsShortSnoc(chunks: seq<string>)
    requires chunks != []
    ensures TailsShort(chunks) <==>
            TailsShort(chunks[..|chunks| - 1]) && |Split(Concat(chunks)).tail| <= MAX_LINE_BYTES
  {
    hide Split, Concat;
    var n := |chunks| - 1;
    assert chunks[..n + 1] == chunks;
    forall k | 0 <= k <= n
      ensures chunks[..n][..k] == chunks[..k]
    {
    }
    if TailsShort(chunks) {
      forall k | 0 <= k <= n
        ensures |Split(Concat(chunks[..n][..k])).tail| <= MAX_LINE_BYTES
      {
        assert chunks[..n][..k] == chunks[..k];
      }
    }
    if TailsShort(chunks[..n]) && |Split(Concat(chunks)).tail| <= MAX_LINE_BYTES {
      forall k | 0 <= k <= n + 1
        ensures |Split(Concat(chunks[..k])).tail| <= MAX_LINE_BYTES
      {
        if k <= n {
          assert chunks[..n][..k] == chunks[..k];
        }
      }
    }
  }

  lemma PrefixFree(s: string, p: nat)
    requires CrlfFree(s) && p <= |s|
    ensures CrlfFree(s[..p])
  {
    assert forall i | 0 <= i < p :: CrlfAt(s[..p], i) ==> CrlfAt(s, i);
  }

  lemma CrFree(line: string)
    requires CrlfFree(line)
    ensures CrlfFree(line + "\r")
  {
    var c := line + "\r";
    assert forall i | 0 <= i < |c| :: CrlfAt(c, i) ==> CrlfAt(line, i);
  }

  /** The tail of a prefix is a prefix of the tail, or of a line with its CR. */
  lemma {:induction false} PrefixTail(s: string, p: nat, limit: nat)
    requires p <= |s| && Short(Split(s).lines, limit)
    ensures |Split(s[..p]).tail| <= Max(limit + 1, |Split(s).tail|)
    decreases |s|
  {
    hide Split, CrlfFree, Short;
    var cut := FirstLine(s);
    if cut.None? {
      SplitWhole(s);
      PrefixFree(s, p);
      SplitWhole(s[..p]);
    } else {
      var line, rest := s[..cut.value], s[cut.value + 2..];
      SplitCons(line, rest);
      ShortCons(line, Split(rest).lines, limit);
      if p <= cut.value + 1 {
        CrFree(line);
        assert (line + "\r")[..p] == s[..p];
        PrefixFree(line + "\r", p);
        SplitWhole(s[..p]);
      } else {
        var q := p - (cut.value + 2);
        PrefixTail(rest, q, limit);
        assert s[..p] == line + "\r\n" + rest[..q];
        SplitCons(line, rest[..q]);
      }
    }
  }

  lemma {:induction false} ConcatPrefix(chunks: seq<string>, k: nat)
    requires k <= |chunks|
    ensures Concat(chunks[..k]) <= Concat(chunks)
    decreases |chunks|
  {
    if k < |chunks| {
      ConcatPrefix(chunks[..|chunks| - 1], k);
      assert chunks[..|chunks| - 1][..k] == chunks[..k];
    } else {
      assert chunks[..k] == chunks;
    }
  }

  ghost predicate Chunking(s: string, chunks: seq<string>) {
    ReadSized(chunks) && Concat(chunks) == s
  }

  /** Safe lengths: with these no chunking into reads can be rejected. */
  predicate SafeLengths(s: string) {
    Short(Split(s).lines, 8_191) && |Split(s).tail| <= 8_192
  }

  lemma SafeIsAccepted(s: string, chunks: seq<string>)
    requires SafeLengths(s) && Chunking(s, chunks)
    ensures Feed(chunks).Ok? && Feed(chunks).value == Split(s)
  {
    forall k | 0 <= k <= |chunks|
      ensures |Split(Concat(chunks[..k])).tail| <= MAX_LINE_BYTES
    {
      ConcatPrefix(chunks, k);
      PrefixTail(s, |Concat(chunks[..k])|, MAX_LINE_BYTES - 1);
      assert s[..|Concat(chunks[..k])|] == Concat(chunks[..k]);
    }
    FeedSucceeds(chunks);
    FeedIsSplit(chunks);
  }

  /** The stream in chunks of one byte. */
  function Bytes(s: string): seq<string> {
    seq(|s|, i requires 0 <= i < |s| => [s[i]])
  }

  lemma {:induction false} BytesConcat(s: string)
    ensures Concat(Bytes(s)) == s
  {
    if s != [] {
      var n := |s| - 1;
      BytesConcat(s[..n]);
      assert Bytes(s)[..n] == Bytes(s[..n]);
    }
  }

  /** A line that fills the limit: some prefix of the stream ends right after its CR. */
  lemma {:induction false} LongLinePrefix(s: string, limit: nat) returns (p: nat)
    requires !Short(Split(s).lines, limit)
    ensures p <= |s| && |Split(s[..p]).tail| > limit + 1
    decreases |s|
  {
    hide Split, CrlfFree, Short;
    var cut := FirstLine(s);
    if cut.None? {
      SplitWhole(s);
      NoneIsShort(limit);
      assert false;
    } else {
      var line, rest := s[..cut.value], s[cut.value + 2..];
      SplitCons(line, rest);
      ShortCons(line, Split(rest).lines, limit);
      if |line| > limit {
        p := cut.value + 1;
        CrFree(line);
        assert s[..p] == line + "\r";
        SplitWhole(s[..p]);
      } else {
        var q := LongLinePrefix(rest, limit);
        p := q + cut.value + 2;
        assert s[..p] == line + "\r\n" + rest[..q];
        SplitCons(line, rest[..q]);
      }
    }
  }

  lemma NoneIsShort(limit: nat)
    ensures Short([], limit)
  {
  }

  /** A stream is accepted under every chunking into reads exactly when its lines are at
      most 8191 bytes and its unfinished tail at most 8192. */
  lemma AcceptedUnderEveryChunking(s: string)
    ensures (forall chunks | Chunking(s, chunks) :: Feed(chunks).Ok?) <==> SafeLengths(s)
  {
    if SafeLengths(s) {
      forall chunks | Chunking(s, chunks)
        ensures Feed(chunks).Ok?
      {
        SafeIsAccepted(s, chunks);
      }
    } else {
      BytesConcat(s);
      var chunks := Bytes(s);
      assert Chunking(s, chunks);
      FeedSucceeds(chunks);
      if Short(Split(s).lines, MAX_LINE_BYTES - 1) {
        assert chunks[..|chunks|] == chunks;
      } else {
        var p := LongLinePrefix(s, MAX_LINE_BYTES - 1);
        BytesConcat(s[..p]);
        assert chunks[..p] == Bytes(s[..p]);
      }
      assert !Feed(chunks).Ok?;
    }
  }

  /** A line of exactly 8192 bytes: accepted in one read after the first 4097 bytes of it,
      rejected when a chunk ends between its CR and its LF. */
  lemma FullLineDependsOnChunks(line: string)
    requires |line| == 8_192 && CrlfFree(line)
    ensures Feed([line[..4_096], line[4_096..], "\r\n"]) == Ok(Frames([line], ""))
    ensures Feed([line[..4_096], line[4_096..], "\r", "\n"]) == Thrown
  {
    hide Split, Cut, CrlfFree;
    var a, b := line[..4_096], line[4_096..];
    assert a + b == line;
    PrefixFree(line, 4_096);
    SplitWhole(a);
    SplitWhole(line);
    var none: seq<string> := [];
    assert none + none == none && none + ([line] + none) == [line];
    assert "" + a == a;
    FeedMore([], a, [a], a);
    FeedMore([a], b, [a, b], line);
    EmptyFree();
    SplitWhole("");
    SplitCons(line, "");
    assert line + "\r\n" + "" == line + "\r\n";
    FeedMore([a, b], "\r\n", [a, b, "\r\n"], line + "\r\n");
    CrFree(line);
    SplitWhole(line + "\r");
    FeedMore([a, b], "\r", [a, b, "\r"], line + "\r");
    FeedMore([a, b, "\r"], "\n", [a, b, "\r", "\n"], "");
  }

  lemma EmptyFree()
    ensures CrlfFree("")
  {
  }

  lemma FeedMore(chunks: seq<string>, chunk: string, more: seq<string>, joined: string)
    requires more == chunks + [chunk]
    ensures Feed(chunks).Thrown? ==> Feed(more).Thrown?
    ensures Feed(chunks).Ok? && joined == Feed(chunks).value.tail + chunk && |joined| <= MAX_BUFFER_BYTES ==>
              if Short(Split(joined).lines, MAX_LINE_BYTES) && |Split(joined).tail| <= MAX_LINE_BYTES then
                Feed(more) == Ok(Frames(Feed(chunks).value.lines + Split(joined).lines, Split(joined).tail))
              else
                Feed(more).Thrown?
  {
    hide Split, Cut;
    assert more[..|more| - 1] == chunks;
    CutIsSplit(joined);
  }
}
