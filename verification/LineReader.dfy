/** The bounded line reader of http_transport.rs: whatever pieces the input arrives in, its lines are those of the
    whole. */
module LineReader {
  import opened Wrappers
  import opened Text
  import opened Encoding

  const LF: byte := 10
  const CR: byte := 13

  function Flatten(pieces: seq<seq<byte>>): seq<byte> {
    if pieces == [] then [] else pieces[0] + Flatten(pieces[1..])
  }

  // ----- the split of a whole input -----------------------------------------------------------------------------

  /** The length of the first line with its terminator, or of what is left without one. */
  function FirstLine(input: seq<byte>): (n: nat)
    ensures n <= |input|
    ensures input != [] ==> n > 0
  {
    if input == [] then 0 else if input[0] == LF then 1 else 1 + FirstLine(input[1..])
  }

  predicate NoLf(s: seq<byte>) {
    forall i :: 0 <= i < |s| ==> s[i] != LF
  }

  lemma {:induction false} FirstLineEnds(input: seq<byte>)
    requires input != []
    ensures var n := FirstLine(input);
            && NoLf(input[..n - 1])
            && (n < |input| ==> input[n - 1] == LF)
            && (input[n - 1] != LF ==> NoLf(input))
  {
    if input[0] != LF && |input| > 1 {
      FirstLineEnds(input[1..]);
      var n := FirstLine(input);
      assert input[..n - 1] == [input[0]] + input[1..][..n - 2];
    }
  }

  function Segments(input: seq<byte>): seq<seq<byte>> {
    if input == [] then [] else [input[..FirstLine(input)]] + Segments(input[FirstLine(input)..])
  }

  predicate Terminated(s: seq<byte>) {
    s != [] && s[|s| - 1] == LF
  }

  /** A segment holds one line feed at most, and only at its end. */
  predicate OneLine(s: seq<byte>) {
    s != [] && NoLf(s[..|s| - 1])
  }

  function Stripped(s: seq<byte>): seq<byte> {
    if !Terminated(s) then s
    else if |s| > 1 && s[|s| - 2] == CR then s[..|s| - 2]
    else s[..|s| - 1]
  }

  ghost predicate Divides(segments: seq<seq<byte>>, input: seq<byte>) {
    && Flatten(segments) == input
    && (forall i :: 0 <= i < |segments| ==> OneLine(segments[i]))
    && (forall i :: 0 <= i < |segments| - 1 ==> Terminated(segments[i]))
  }

  lemma {:induction false} SegmentsDivide(input: seq<byte>)
    ensures Divides(Segments(input), input)
  {
    hide FirstLine, NoLf;
    if input != [] {
      var n := FirstLine(input);
      FirstLineEnds(input);
      SegmentsDivide(input[n..]);
      var first, rest := input[..n], Segments(input[n..]);
      assert first[..|first| - 1] == input[..n - 1];
      assert Flatten([first] + rest) == first + Flatten(rest) == input;
      assert n == |input| ==> rest == [];
      DividesFirst(first, rest);
    }
  }

  lemma DividesFirst(first: seq<byte>, rest: seq<seq<byte>>)
    requires OneLine(first) && Divides(rest, Flatten(rest)) && (rest != [] ==> Terminated(first))
    ensures Divides([first] + rest, first + Flatten(rest))
  {
    hide OneLine, Terminated;
    var all := [first] + rest;
    assert all[1..] == rest;
  }

  lemma {:induction false} DivisionIsSegments(segments: seq<seq<byte>>)
    requires Divides(segments, Flatten(segments))
    ensures segments == Segments(Flatten(segments))
  {
    if segments != [] {
      var first, rest := segments[0], segments[1..];
      assert Divides(rest, Flatten(rest));
      DivisionIsSegments(rest);
      FirstOfDivision(first, Flatten(rest));
      assert segments == [first] + rest;
    }
  }

  lemma FirstOfDivision(first: seq<byte>, tail: seq<byte>)
    requires OneLine(first) && (Terminated(first) || tail == [])
    ensures FirstLine(first + tail) == |first|
    ensures (first + tail)[..|first|] == first && (first + tail)[|first|..] == tail
  {
    var last := first[|first| - 1];
    FirstLineGoesOn(first[..|first| - 1], [last] + tail);
    assert first + tail == first[..|first| - 1] + ([last] + tail);
    assert ([last] + tail)[1..] == tail;
  }

  /** The segments are the only division of the input into lines. */
  lemma SegmentsAre(input: seq<byte>, segments: seq<seq<byte>>)
    ensures segments == Segments(input) <==> Divides(segments, input)
  {
    SegmentsDivide(input);
    if Divides(segments, input) {
      DivisionIsSegments(segments);
    }
  }

  // ----- reading one line ---------------------------------------------------------------------------------------

  datatype Failure = TooLong | NotText | NotAMessage

  function NextLine(input: seq<byte>, limit: nat): Result<Option<seq<byte>>, Failure> {
    if input == [] then Ok(None)
    else if FirstLine(input) > limit then Err(TooLong)
    else Ok(Some(Stripped(input[..FirstLine(input)])))
  }

  function AsText(line: Result<Option<seq<byte>>, Failure>): Result<Option<string>, Failure> {
    match line
    case Err(e) => Err(e)
    case Ok(None) => Ok(None)
    case Ok(Some(bytes)) =>
      var text := Decode(bytes);
      if text.None? then Err(NotText) else Ok(text)
  }

  /** The next line as text. */
  function NextText(input: seq<byte>, limit: nat): Result<Option<string>, Failure> {
    AsText(NextLine(input, limit))
  }

  /** A buffered reader over input that arrives in pieces. */
  class Reader {
    var pieces: seq<seq<byte>>

    ghost predicate Valid()
      reads this
    {
      forall i :: 0 <= i < |pieces| ==> pieces[i] != []
    }

    function Rest(): seq<byte>
      reads this
    {
      Flatten(pieces)
    }

    constructor (input: seq<seq<byte>>)
      requires forall i :: 0 <= i < |input| ==> input[i] != []
      ensures Valid() && Rest() == Flatten(input)
    {
      pieces := input;
    }

    function FillBuf(): (available: seq<byte>)
      requires Valid()
      reads this
      ensures available <= Rest()
      ensures available == [] <==> Rest() == []
    {
      if pieces == [] then [] else pieces[0]
    }

    method Consume(n: nat)
      requires Valid() && n <= |FillBuf()|
      modifies this
      ensures Valid() && Rest() == old(Rest())[n..]
    {
      if n > 0 {
        var left := pieces[0][n..];
        if left == [] {
          pieces := pieces[1..];
        } else {
          pieces := [left] + pieces[1..];
          assert pieces[1..] == old(pieces)[1..];
        }
      }
    }
  }

  method Position(available: seq<byte>) returns (consumed: nat)
    ensures consumed == FirstLine(available)
  {
    consumed := 0;
    while consumed < |available| && available[consumed] != LF
      invariant consumed <= |available|
      invariant forall i :: 0 <= i < consumed ==> available[i] != LF
      invariant FirstLine(available) == consumed + FirstLine(available[consumed..])
    {
      assert available[consumed..][1..] == available[consumed + 1..];
      consumed := consumed + 1;
    }
    if consumed < |available| {
      consumed := consumed + 1;
    }
  }

  /** What has been taken so far decides the first line only once it ends in a line feed. */
  lemma {:induction false} FirstLineGoesOn(taken: seq<byte>, rest: seq<byte>)
    requires NoLf(taken)
    ensures FirstLine(taken + rest) == |taken| + FirstLine(rest)
  {
    if taken == [] {
      assert taken + rest == rest;
    } else {
      assert (taken + rest)[1..] == taken[1..] + rest;
      FirstLineGoesOn(taken[1..], rest);
    }
  }

  lemma FirstLineAt(input: seq<byte>, n: nat)
    requires 0 < n <= |input| && NoLf(input[..n - 1]) && input[n - 1] == LF
    ensures FirstLine(input) == n
  {
    FirstLineGoesOn(input[..n - 1], input[n - 1..]);
    assert input[..n - 1] + input[n - 1..] == input;
  }

  lemma FirstLineOfPiece(available: seq<byte>, rest: seq<byte>)
    requires available <= rest && available != []
    ensures Terminated(available[..FirstLine(available)]) ==> FirstLine(rest) == FirstLine(available)
    ensures !Terminated(available[..FirstLine(available)]) ==> FirstLine(available) == |available| && NoLf(available)
  {
    hide FirstLine, NoLf;
    var n := FirstLine(available);
    FirstLineEnds(available);
    if available[n - 1] == LF {
      assert rest[..n - 1] == available[..n - 1];
      FirstLineAt(rest, n);
    }
  }

  lemma NoLfYet()
    ensures NoLf([])
  {
  }

  lemma NotTerminated(s: seq<byte>)
    requires NoLf(s)
    ensures !Terminated(s)
  {
  }

  lemma NoLfTogether(a: seq<byte>, b: seq<byte>)
    requires NoLf(a) && NoLf(b)
    ensures NoLf(a + b)
  {
  }

  /** What one more piece tells about the first line of the whole input. */
  lemma PieceTells(input: seq<byte>, bytes: seq<byte>, available: seq<byte>, rest: seq<byte>)
    requires input == bytes + rest && available <= rest && (available == [] ==> rest == [])
    requires NoLf(bytes)
    ensures var c := FirstLine(available);
            && |bytes| + c <= FirstLine(input)
            && bytes + available[..c] == input[..|bytes| + c]
            && (Terminated(available[..c]) ==> FirstLine(input) == |bytes| + c)
            && (!Terminated(available[..c]) ==> NoLf(input[..|bytes| + c]))
            && (rest == [] ==> FirstLine(input) == |bytes| == |input|)
  {
    hide FirstLine, NoLf;
    FirstLineGoesOn(bytes, rest);
    FirstLineOfNothing();
    if available != [] {
      var c := FirstLine(available);
      FirstLineOfPiece(available, rest);
      TakenWithin(available, rest);
      if !Terminated(available[..c]) {
        NoLfTogether(bytes, available);
        assert input[..|bytes| + c] == bytes + available;
      }
    } else {
      assert input[..|bytes|] == bytes;
    }
  }

  lemma LastLine(input: seq<byte>, limit: nat)
    requires FirstLine(input) == |input| <= limit && NoLf(input)
    ensures NextLine(input, limit) == if input == [] then Ok(None) else Ok(Some(input))
  {
    hide FirstLine;
    NotTerminated(input);
    assert input[..|input|] == input;
  }

  lemma LongLine(input: seq<byte>, limit: nat)
    requires input != [] && FirstLine(input) > limit
    ensures NextLine(input, limit) == Err(TooLong)
  {
  }

  lemma EndedLine(input: seq<byte>, line: seq<byte>, limit: nat)
    requires input != [] && FirstLine(input) == |line| <= limit && line == input[..|line|] && Terminated(line)
    ensures var bytes := line[..|line| - 1];
            NextLine(input, limit)
            == Ok(Some(if bytes != [] && bytes[|bytes| - 1] == CR then bytes[..|bytes| - 1] else bytes))
  {
    hide FirstLine;
    var bytes := line[..|line| - 1];
    assert Stripped(line) == if bytes != [] && bytes[|bytes| - 1] == CR then bytes[..|bytes| - 1] else bytes;
  }

  /** The loop of the reader, filling its buffer piece by piece. */
  method TakeLine(reader: Reader, limit: nat) returns (r: Result<Option<seq<byte>>, Failure>)
    requires reader.Valid()
    modifies reader
    ensures reader.Valid()
    ensures r == NextLine(old(reader.Rest()), limit)
    ensures r.Ok? ==> reader.Rest() == old(reader.Rest())[FirstLine(old(reader.Rest()))..]
    ensures |old(reader.Rest())| - limit <= |reader.Rest()| <= |old(reader.Rest())|
  {
    hide FirstLine, Flatten, NoLf, NextLine, Stripped;
    NoLfYet();
    ghost var input := reader.Rest();
    var bytes: seq<byte> := [];
    while true
      invariant reader.Valid()
      invariant |bytes| <= limit && |bytes| <= |input| && bytes == input[..|bytes|] && reader.Rest() == input[|bytes|..]
      invariant NoLf(bytes)
      decreases |reader.Rest()|
    {
      var available := reader.FillBuf();
      PieceTells(input, bytes, available, reader.Rest());
      if available == [] {
        assert bytes == input;
        LastLine(input, limit);
        if bytes == [] {
          return Ok(None);
        }
        return Ok(Some(bytes));
      }
      var consumed := Position(available);
      if |bytes| + consumed > limit {
        LongLine(input, limit);
        return Err(TooLong);
      }
      bytes := bytes + available[..consumed];
      reader.Consume(consumed);
      if Terminated(bytes) {
        EndedLine(input, bytes, limit);
        bytes := bytes[..|bytes| - 1];
        if bytes != [] && bytes[|bytes| - 1] == CR {
          bytes := bytes[..|bytes| - 1];
        }
        return Ok(Some(bytes));
      }
    }
  }

  /** The result and what is left depend on the input alone; a reader never takes more than the limit. */
  method ReadBoundedLine(reader: Reader, limit: nat) returns (r: Result<Option<string>, Failure>)
    requires reader.Valid()
    modifies reader
    ensures reader.Valid()
    ensures r == NextText(old(reader.Rest()), limit)
    ensures r.Ok? ==> reader.Rest() == old(reader.Rest())[FirstLine(old(reader.Rest()))..]
    ensures |old(reader.Rest())| - limit <= |reader.Rest()| <= |old(reader.Rest())|
  {
    hide FirstLine, NextLine, Flatten, Decode;
    var line := TakeLine(reader, limit);
    return AsText(line);
  }

  lemma FirstLineOfNothing()
    ensures FirstLine([]) == 0
  {
  }

  lemma TakenWithin(available: seq<byte>, rest: seq<byte>)
    requires available <= rest && available != []
    ensures FirstLine(available) <= FirstLine(rest)
  {
    FirstLineOfPiece(available, rest);
    if !Terminated(available[..FirstLine(available)]) {
      FirstLineGoesOn(available, rest[|available|..]);
      assert available + rest[|available|..] == rest;
    }
  }

  // ----- reading them all ---------------------------------------------------------------------------------------

  /** What a loop over the lines hands on, and what ended it if not the end of the input. */
  datatype Reading = Reading(messages: seq<string>, failure: Option<Failure>)

  predicate Blank(text: string) {
    Trim(text) == ""
  }

  function SegmentText(segment: seq<byte>, limit: nat): Result<string, Failure> {
    if |segment| > limit then Err(TooLong)
    else
      var text := Decode(Stripped(segment));
      if text.None? then Err(NotText) else Ok(text.value)
  }

  /** Segment by segment: blank lines are passed over, and `accepts` says which texts are JSON-RPC messages. */
  function Messages(segments: seq<seq<byte>>, limit: nat, accepts: string -> bool): Reading {
    if segments == [] then Reading([], None)
    else
      match SegmentText(segments[0], limit)
      case Err(e) => Reading([], Some(e))
      case Ok(text) =>
        if Blank(text) then Messages(segments[1..], limit, accepts)
        else if !accepts(text) then Reading([], Some(NotAMessage))
        else
          var rest := Messages(segments[1..], limit, accepts);
          Reading([text] + rest.messages, rest.failure)
  }

  predicate Readable(segment: seq<byte>, limit: nat, accepts: string -> bool) {
    var text := SegmentText(segment, limit);
    text.Ok? && (Blank(text.value) || accepts(text.value))
  }

  /** Reading fails exactly when some line is too long, is not UTF-8, or is neither blank nor a message. */
  lemma {:induction false} ReadingFails(segments: seq<seq<byte>>, limit: nat, accepts: string -> bool)
    ensures Messages(segments, limit, accepts).failure.Some?
            <==> exists i :: 0 <= i < |segments| && !Readable(segments[i], limit, accepts)
  {
    hide SegmentText, Blank;
    if segments != [] {
      var rest := segments[1..];
      ReadingFails(rest, limit, accepts);
      if !Readable(segments[0], limit, accepts) {
        assert Messages(segments, limit, accepts).failure.Some?;
      } else {
        assert forall i :: 0 <= i < |rest| ==> rest[i] == segments[i + 1];
        if i :| 0 <= i < |segments| && !Readable(segments[i], limit, accepts) {
          assert rest[i - 1] == segments[i];
        }
      }
    }
  }

  lemma SegmentsFirst(input: seq<byte>)
    requires input != []
    ensures var n := FirstLine(input);
            0 < n <= |input| && Segments(input) == [input[..n]] + Segments(input[n..])
    ensures var n := FirstLine(input);
            Segments(input) != [] && Segments(input)[0] == input[..n] && Segments(input)[1..] == Segments(input[n..])
  {
    hide FirstLine;
  }

  lemma NextOfSegments(input: seq<byte>, limit: nat)
    ensures Segments(input) == [] <==> input == []
    ensures input == [] ==> NextText(input, limit) == Ok(None)
    ensures input != [] ==> NextText(input, limit) == match SegmentText(Segments(input)[0], limit)
                                                      case Err(e) => Err(e)
                                                      case Ok(text) => Ok(Some(text))
  {
    hide Decode, Stripped, FirstLine, Segments;
    if input != [] {
      SegmentsFirst(input);
    } else {
      SegmentsOfNothing();
    }
  }

  lemma SegmentsOfNothing()
    ensures Segments([]) == []
  {
  }

  /** The bridge's loop over its input: the messages of the whole, up to the first line that fails it. */
  method ReadMessages(reader: Reader, limit: nat, accepts: string -> bool) returns (messages: seq<string>, failure: Option<Failure>)
    requires reader.Valid()
    modifies reader
    ensures Reading(messages, failure) == Messages(Segments(old(reader.Rest())), limit, accepts)
  {
    hide Decode, Stripped, FirstLine, SegmentText, Blank, NextText, Segments, Flatten;
    messages := [];
    ghost var all := Messages(Segments(reader.Rest()), limit, accepts);
    while true
      invariant reader.Valid()
      invariant var left := Messages(Segments(reader.Rest()), limit, accepts);
                all == Reading(messages + left.messages, left.failure)
      decreases |reader.Rest()|
    {
      ghost var rest := reader.Rest();
      NextOfSegments(rest, limit);
      if rest != [] {
        SegmentsFirst(rest);
      }
      var line := ReadBoundedLine(reader, limit);
      if line.Err? {
        return messages, Some(line.error);
      }
      if line.value.None? {
        return messages, None;
      }
      var text := line.value.value;
      if Blank(text) {
        continue;
      }
      if !accepts(text) {
        return messages, Some(NotAMessage);
      }
      messages := messages + [text];
    }
  }

  // ----- what the lines are -------------------------------------------------------------------------------------

  /** A line as a peer writes it, ended by a line feed or by both characters. */
  function Written(line: seq<byte>, crlf: bool): seq<byte> {
    line + if crlf then [CR, LF] else [LF]
  }

  predicate Writable(line: seq<byte>) {
    NoLf(line) && (line != [] ==> line[|line| - 1] != CR)
  }

  function StrippedAll(segments: seq<seq<byte>>): (r: seq<seq<byte>>)
    ensures |r| == |segments|
    ensures forall i :: 0 <= i < |r| ==> r[i] == Stripped(segments[i])
  {
    if segments == [] then [] else [Stripped(segments[0])] + StrippedAll(segments[1..])
  }

  function WrittenAll(lines: seq<seq<byte>>, crlf: seq<bool>): (r: seq<seq<byte>>)
    requires |lines| == |crlf|
    ensures |r| == |lines|
    ensures forall i :: 0 <= i < |r| ==> r[i] == Written(lines[i], crlf[i])
  {
    seq(|lines|, i requires 0 <= i < |lines| => Written(lines[i], crlf[i]))
  }

  /** Lines written one after another, with either line end, are the lines read. */
  lemma WrittenLinesAreRead(lines: seq<seq<byte>>, crlf: seq<bool>)
    requires |lines| == |crlf| && forall i :: 0 <= i < |lines| ==> Writable(lines[i])
    ensures StrippedAll(Segments(Flatten(WrittenAll(lines, crlf)))) == lines
  {
    var written := WrittenAll(lines, crlf);
    forall i | 0 <= i < |written|
      ensures OneLine(written[i]) && Terminated(written[i]) && Stripped(written[i]) == lines[i]
    {
      StrippedWritten(lines[i], crlf[i]);
    }
    DivisionIsSegments(written);
  }

  lemma StrippedWritten(line: seq<byte>, crlf: bool)
    requires Writable(line)
    ensures OneLine(Written(line, crlf)) && Terminated(Written(line, crlf)) && Stripped(Written(line, crlf)) == line
  {
  }

  lemma NoLfPrefix(s: seq<byte>, n: nat)
    requires NoLf(s) && n <= |s|
    ensures NoLf(s[..n])
  {
  }

  lemma SliceOfSlice(s: seq<byte>, from: nat, to: nat)
    requires from <= to <= |s|
    ensures s[from..][..to - from] == s[from..to]
  {
  }

  /** A read abandoned after taking some of a line loses it: the tail is then read as if it were the line. */
  lemma AbandonedReadCutsTheLine(input: seq<byte>, taken: nat, limit: nat)
    requires taken < FirstLine(input) <= limit
    ensures FirstLine(input[taken..]) == FirstLine(input) - taken
    ensures NextLine(input[taken..], limit) == Ok(Some(Stripped(input[taken..FirstLine(input)])))
    ensures input[taken..][FirstLine(input[taken..])..] == input[FirstLine(input)..]
  {
    hide FirstLine, NoLf, Stripped;
    FirstLineEnds(input);
    NoLfPrefix(input[..FirstLine(input) - 1], taken);
    assert input[..FirstLine(input) - 1][..taken] == input[..taken];
    FirstLineGoesOn(input[..taken], input[taken..]);
    assert input[..taken] + input[taken..] == input;
    SliceOfSlice(input, taken, FirstLine(input));
  }

  lemma AbandonedWithinLimit(input: seq<byte>, taken: nat, limit: nat)
    requires taken < FirstLine(input) <= limit
    ensures NextLine(input[taken..], limit) == NextLine(input, limit)
            <==> taken == 0 || (taken == 1 && FirstLine(input) == 2 && input[0] == CR && input[1] == LF)
  {
    AbandonedReadCutsTheLine(input, taken, limit);
    var whole, tail := input[..FirstLine(input)], input[taken..FirstLine(input)];
    hide FirstLine;
    assert tail[|tail| - 1] == whole[|whole| - 1];
    if taken == 0 {
      assert tail == whole;
    } else if |tail| > 1 {
      assert tail[|tail| - 2] == whole[|whole| - 2];
    }
  }

  /** Whatever a dropped read may have taken, the next read gives the same exactly when it had taken nothing, or only
      the carriage return of an empty line, or what it left is too long as well. A line that was too long is otherwise
      accepted by its tail, and an unterminated last line that was wholly taken is gone. */
  lemma AbandonedReadIsHarmlessWhen(input: seq<byte>, taken: nat, limit: nat)
    requires taken <= limit && taken <= |input| && NoLf(input[..taken])
    ensures NextLine(input[taken..], limit) == NextLine(input, limit)
            <==> || taken == 0
                 || (taken == 1 && limit >= 2 && FirstLine(input) == 2 && input[0] == CR && input[1] == LF)
                 || FirstLine(input) - taken > limit
  {
    hide FirstLine, NoLf, Stripped;
    FirstLineGoesOn(input[..taken], input[taken..]);
    assert input[..taken] + input[taken..] == input;
    FirstLineOfNothing();
    if taken == 0 {
      assert input[taken..] == input;
    } else if FirstLine(input) <= limit && taken < FirstLine(input) {
      AbandonedWithinLimit(input, taken, limit);
    }
  }
}
