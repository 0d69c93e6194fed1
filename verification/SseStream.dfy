/** The event stream reader of http_transport.rs: section 9.2.6 of the WHATWG HTML standard, for line ends LF and
    CRLF, under every division of the stream at character boundaries. */
module SseStream {
  import opened Wrappers
  import opened Text
  import opened Encoding

  // ----- event boundaries ---------------------------------------------------------------------------------------

  predicate LfAt(s: string, i: nat) {
    i + 2 <= |s| && s[i] == '\n' && s[i + 1] == '\n'
  }

  predicate CrlfAt(s: string, i: nat) {
    i + 4 <= |s| && s[i] == '\r' && s[i + 1] == '\n' && s[i + 2] == '\r' && s[i + 3] == '\n'
  }

  function FindLf(s: string, from: nat): (r: Option<nat>)
    ensures r.Some? ==> from <= r.value && LfAt(s, r.value) && forall i :: from <= i < r.value ==> !LfAt(s, i)
    ensures r.None? ==> forall i :: from <= i ==> !LfAt(s, i)
    decreases |s| - from
  {
    if from + 2 > |s| then None else if LfAt(s, from) then Some(from) else FindLf(s, from + 1)
  }

  function FindCrlf(s: string, from: nat): (r: Option<nat>)
    ensures r.Some? ==> from <= r.value && CrlfAt(s, r.value) && forall i :: from <= i < r.value ==> !CrlfAt(s, i)
    ensures r.None? ==> forall i :: from <= i ==> !CrlfAt(s, i)
    decreases |s| - from
  {
    if from + 4 > |s| then None else if CrlfAt(s, from) then Some(from) else FindCrlf(s, from + 1)
  }

  datatype Boundary = Boundary(event: nat, consumed: nat)

  /** `next_sse_event`. */
  function NextEvent(s: string): (r: Option<Boundary>)
    ensures r.Some? ==> r.value.event < r.value.consumed <= |s|
  {
    var lf, crlf := FindLf(s, 0), FindCrlf(s, 0);
    if lf.Some? && (crlf.None? || lf.value <= crlf.value) then Some(Boundary(lf.value, lf.value + 2))
    else if crlf.Some? then Some(Boundary(crlf.value, crlf.value + 4))
    else None
  }

  /** A boundary is the first place where either separator stands. */
  predicate IsBoundary(s: string, b: Boundary) {
    && (if LfAt(s, b.event) then b.consumed == b.event + 2 else CrlfAt(s, b.event) && b.consumed == b.event + 4)
    && forall i :: 0 <= i < b.event ==> !LfAt(s, i) && !CrlfAt(s, i)
  }

  lemma NextEventIsTheBoundary(s: string)
    ensures forall b :: NextEvent(s) == Some(b) <==> IsBoundary(s, b)
  {
  }

  /** A boundary found in a prefix is the boundary of the whole. */
  lemma BoundaryStands(p: string, q: string)
    requires NextEvent(p).Some?
    ensures NextEvent(p + q) == NextEvent(p)
  {
    hide NextEvent;
    var b := NextEvent(p).value;
    NextEventIsTheBoundary(p);
    NextEventIsTheBoundary(p + q);
    forall i | 0 <= i < b.event ensures !LfAt(p + q, i) && !CrlfAt(p + q, i) {
      assert !LfAt(p, i) && !CrlfAt(p, i);
    }
  }

  function Events(s: string): seq<string>
    decreases |s|
  {
    var b := NextEvent(s);
    if b.None? then [] else [s[..b.value.event]] + Events(s[b.value.consumed..])
  }

  /** What follows the last complete event. */
  function Tail(s: string): (t: string)
    ensures |t| <= |s| && t == s[|s| - |t|..]
    decreases |s|
  {
    var b := NextEvent(s);
    if b.None? then s else Tail(s[b.value.consumed..])
  }

  /** Splitting a prefix first, and its tail with the rest after, is splitting the whole. */
  lemma {:induction false} EventsInPieces(p: string, q: string)
    ensures Events(p + q) == Events(p) + Events(Tail(p) + q)
    ensures Tail(p + q) == Tail(Tail(p) + q)
    decreases |p|
  {
    hide NextEvent;
    var b := NextEvent(p);
    if b.Some? {
      BoundaryStands(p, q);
      var c := b.value.consumed;
      assert (p + q)[c..] == p[c..] + q && (p + q)[..b.value.event] == p[..b.value.event];
      EventsInPieces(p[c..], q);
    }
  }

  // ----- the data of an event -----------------------------------------------------------------------------------

  function LineEnd(s: string): (n: nat)
    ensures n <= |s|
    ensures s != "" ==> n > 0
  {
    if s == "" then 0 else if s[0] == '\n' then 1 else 1 + LineEnd(s[1..])
  }

  /** A carriage return goes only with the line feed after it. */
  function Unended(line: string): string {
    if line == "" || line[|line| - 1] != '\n' then line
    else if |line| > 1 && line[|line| - 2] == '\r' then line[..|line| - 2]
    else line[..|line| - 1]
  }

  function Lines(s: string): seq<string> {
    if s == "" then [] else [Unended(s[..LineEnd(s)])] + Lines(s[LineEnd(s)..])
  }

  function DataOf(line: string): Option<string> {
    if !("data:" <= line) then None
    else if |line| > 5 && line[5] == ' ' then Some(line[6..])
    else Some(line[5..])
  }

  function AllData(lines: seq<string>): seq<string> {
    if lines == [] then []
    else (if DataOf(lines[0]).Some? then [DataOf(lines[0]).value] else []) + AllData(lines[1..])
  }

  function Join(parts: seq<string>): string {
    if parts == [] then "" else if |parts| == 1 then parts[0] else parts[0] + "\n" + Join(parts[1..])
  }

  /** `parse_sse_data`. */
  function ParseData(event: string): Option<string> {
    var data := AllData(Lines(event));
    if data == [] then None else Some(Join(data))
  }

  // ----- consuming a stream -------------------------------------------------------------------------------------

  /** What the client makes of one event's data. */
  datatype Verdict = Refused | Message | Answer

  datatype End = Open | Answered | BadData

  datatype Progress = Progress(emitted: seq<string>, end: End)

  function Process(judge: string -> Verdict, events: seq<string>): Progress {
    if events == [] then Progress([], Open)
    else
      var data := ParseData(events[0]);
      if data.None? then Process(judge, events[1..])
      else
        match judge(data.value)
        case Refused => Progress([], BadData)
        case Answer => Progress([data.value], Answered)
        case Message =>
          var rest := Process(judge, events[1..]);
          Progress([data.value] + rest.emitted, rest.end)
  }

  lemma {:induction false} ProcessInPieces(judge: string -> Verdict, a: seq<string>, b: seq<string>)
    ensures Process(judge, a + b)
            == if Process(judge, a).end != Open then Process(judge, a)
               else Progress(Process(judge, a).emitted + Process(judge, b).emitted, Process(judge, b).end)
  {
    hide ParseData;
    if a == [] {
      assert a + b == b;
    } else {
      assert (a + b)[1..] == a[1..] + b;
      ProcessInPieces(judge, a[1..], b);
    }
  }

  /** What a whole stream gives. */
  function Whole(judge: string -> Verdict, text: string): Progress {
    Process(judge, Events(text))
  }

  function Concat(chunks: seq<string>): string {
    if chunks == [] then "" else Concat(chunks[..|chunks| - 1]) + chunks[|chunks| - 1]
  }

  /** The text of a chunk; one that is not UTF-8 has none. */
  function TextOf(chunk: seq<byte>): string {
    Decode(chunk).GetOr("")
  }

  function Texts(chunks: seq<seq<byte>>): (r: seq<string>)
    ensures |r| == |chunks|
  {
    if chunks == [] then [] else Texts(chunks[..|chunks| - 1]) + [TextOf(chunks[|chunks| - 1])]
  }

  lemma {:induction false} TextsPrefix(chunks: seq<seq<byte>>, k: nat)
    requires k <= |chunks|
    ensures Texts(chunks[..k]) == Texts(chunks)[..k]
    decreases |chunks|
  {
    hide TextOf;
    if k < |chunks| {
      TextsPrefix(chunks[..|chunks| - 1], k);
      assert chunks[..|chunks| - 1][..k] == chunks[..k];
    } else {
      assert chunks[..k] == chunks;
    }
  }

  lemma TextsAt(chunks: seq<seq<byte>>, k: nat)
    requires k < |chunks|
    ensures Texts(chunks)[k] == TextOf(chunks[k])
  {
    hide TextOf;
    TextsPrefix(chunks, k + 1);
    var upTo := chunks[..k + 1];
    assert Texts(upTo)[k] == TextOf(upTo[k]);
  }

  /** The stream is still open when chunk `k` arrives, and every chunk before it was text. */
  ghost predicate Arrives(judge: string -> Verdict, chunks: seq<seq<byte>>, k: nat) {
    && k < |chunks|
    && (forall j :: 0 <= j < k ==> Decode(chunks[j]).Some?)
    && Whole(judge, Concat(Texts(chunks)[..k])).end == Open
  }

  /** Chunk `k` arrives and does not fit beside what is pending. */
  ghost predicate Overflows(judge: string -> Verdict, chunks: seq<seq<byte>>, limit: nat, k: nat) {
    Arrives(judge, chunks, k) && ByteLen(Tail(Concat(Texts(chunks)[..k]))) + |chunks[k]| > limit
  }

  /** Chunk `k` arrives, it and every chunk before it fits, and it is not UTF-8 by itself. */
  ghost predicate Garbles(judge: string -> Verdict, chunks: seq<seq<byte>>, limit: nat, k: nat) {
    && Arrives(judge, chunks, k) && Decode(chunks[k]).None?
    && forall j :: 0 <= j <= k ==> !Overflows(judge, chunks, limit, j)
  }

  datatype Outcome = Finished | EndedEarly | Malformed | TooLarge | NotText

  function OutcomeOf(end: End, expectsAnswer: bool): Outcome {
    match end
    case Open => if expectsAnswer then EndedEarly else Finished
    case Answered => Finished
    case BadData => Malformed
  }

  lemma WholeInPieces(judge: string -> Verdict, p: string, q: string)
    ensures Whole(judge, p + q)
            == if Whole(judge, p).end != Open then Whole(judge, p)
               else Progress(Whole(judge, p).emitted + Whole(judge, Tail(p) + q).emitted, Whole(judge, Tail(p) + q).end)
  {
    EventsInPieces(p, q);
    ProcessInPieces(judge, Events(p), Events(Tail(p) + q));
  }

  lemma {:induction false} ConcatSplits(chunks: seq<string>, k: nat)
    requires k <= |chunks|
    ensures Concat(chunks) == Concat(chunks[..k]) + Concat(chunks[k..])
    decreases |chunks|
  {
    if k < |chunks| {
      var init := chunks[..|chunks| - 1];
      ConcatSplits(init, k);
      assert init[..k] == chunks[..k] && init[k..] == chunks[k..][..|chunks| - k - 1];
    } else {
      assert chunks[..k] == chunks;
    }
  }

  lemma NextChunk(judge: string -> Verdict, chunks: seq<string>, k: nat)
    requires k < |chunks| && Whole(judge, Concat(chunks[..k])).end == Open
    ensures var before, more := Concat(chunks[..k]), Whole(judge, Tail(Concat(chunks[..k])) + chunks[k]);
            && Whole(judge, Concat(chunks[..k + 1])) == Progress(Whole(judge, before).emitted + more.emitted, more.end)
            && Tail(Concat(chunks[..k + 1])) == Tail(Tail(before) + chunks[k])
  {
    hide Whole, Tail;
    assert chunks[..k + 1][..k] == chunks[..k];
    WholeInPieces(judge, Concat(chunks[..k]), chunks[k]);
    EventsInPieces(Concat(chunks[..k]), chunks[k]);
  }

  /** What a prefix of the chunks gave stands, and is final once the stream has ended. */
  lemma PrefixStands(judge: string -> Verdict, chunks: seq<string>, k: nat, j: nat)
    requires k <= j <= |chunks|
    ensures Whole(judge, Concat(chunks[..k])).emitted <= Whole(judge, Concat(chunks[..j])).emitted
    ensures var now := Whole(judge, Concat(chunks[..k]));
            now.end != Open ==> Whole(judge, Concat(chunks[..j])) == now
  {
    hide Whole, Tail, Concat;
    ConcatSplits(chunks[..j], k);
    assert chunks[..j][..k] == chunks[..k];
    WholeInPieces(judge, Concat(chunks[..k]), Concat(chunks[..j][k..]));
  }

  lemma TailIsShorter(s: string)
    ensures ByteLen(Tail(s)) <= ByteLen(s)
  {
    hide Tail, ByteLen;
    var t := Tail(s);
    ByteLenAppend(s[..|s| - |t|], t);
    assert s[..|s| - |t|] + t == s;
  }

  /** What taking one event leaves to be said of the rest. */
  lemma TakeOne(judge: string -> Verdict, s: string)
    requires NextEvent(s).Some?
    ensures var b := NextEvent(s).value;
            var data, rest := ParseData(s[..b.event]), s[b.consumed..];
            && Tail(s) == Tail(rest)
            && Whole(judge, s)
               == if data.None? then Whole(judge, rest)
                  else match judge(data.value)
                    case Refused => Progress([], BadData)
                    case Answer => Progress([data.value], Answered)
                    case Message => Progress([data.value] + Whole(judge, rest).emitted, Whole(judge, rest).end)
  {
    hide NextEvent, ParseData;
    var b := NextEvent(s).value;
    assert Events(s)[1..] == Events(s[b.consumed..]);
  }

  lemma TakeNone(judge: string -> Verdict, s: string)
    requires NextEvent(s).None?
    ensures Tail(s) == s && Whole(judge, s) == Progress([], Open)
  {
  }

  method TakeEvents(judge: string -> Verdict, text: string) returns (ended: End, sent: seq<string>, pending: string)
    ensures Progress(sent, ended) == Whole(judge, text)
    ensures ended == Open ==> pending == Tail(text)
  {
    hide NextEvent, ParseData, Whole, Tail;
    sent, pending := [], text;
    while true
      invariant Whole(judge, text) == Progress(sent + Whole(judge, pending).emitted, Whole(judge, pending).end)
      invariant Tail(pending) == Tail(text)
      decreases |pending|
    {
      var b := NextEvent(pending);
      if b.None? {
        TakeNone(judge, pending);
        return Open, sent, pending;
      }
      TakeOne(judge, pending);
      var data := ParseData(pending[..b.value.event]);
      pending := pending[b.value.consumed..];
      if data.Some? {
        match judge(data.value) {
          case Refused => return BadData, sent, pending;
          case Answer => return Answered, sent + [data.value], pending;
          case Message => sent := sent + [data.value];
        }
      }
    }
  }

  lemma ArrivesWhen(judge: string -> Verdict, chunks: seq<seq<byte>>, limit: nat, k: nat)
    requires k < |chunks| && Whole(judge, Concat(Texts(chunks)[..k])).end == Open
    requires forall j :: 0 <= j < k ==> Decode(chunks[j]).Some?
    requires forall j :: 0 <= j < k ==> !Overflows(judge, chunks, limit, j)
    ensures Overflows(judge, chunks, limit, k) <==> ByteLen(Tail(Concat(Texts(chunks)[..k]))) + |chunks[k]| > limit
    ensures !Overflows(judge, chunks, limit, k) ==> (Garbles(judge, chunks, limit, k) <==> Decode(chunks[k]).None?)
  {
    hide Whole, Tail, ByteLen, Concat, Decode, Texts;
  }

  /** Nothing arrives past a chunk that is not text, past the end of the stream, or past the last chunk. */
  lemma NothingArrives(judge: string -> Verdict, chunks: seq<seq<byte>>, limit: nat, k: nat)
    requires k <= |chunks|
    requires || k == |chunks| || Whole(judge, Concat(Texts(chunks)[..k])).end != Open
             || (k > 0 && Decode(chunks[k - 1]).None?)
    ensures forall j :: k <= j ==> !Overflows(judge, chunks, limit, j) && !Garbles(judge, chunks, limit, j)
  {
    hide Whole, Tail, ByteLen, Decode, Texts;
    forall j | k <= j ensures !Arrives(judge, chunks, j) {
      if j < |chunks| && Whole(judge, Concat(Texts(chunks)[..k])).end != Open {
        PrefixStands(judge, Texts(chunks), k, j);
      }
    }
  }

  /** Nothing garbles once a chunk has overflowed. */
  lemma OverflowIsFirst(judge: string -> Verdict, chunks: seq<seq<byte>>, limit: nat, k: nat)
    requires Overflows(judge, chunks, limit, k)
    requires forall j :: 0 <= j < k ==> !Garbles(judge, chunks, limit, j)
    ensures forall j :: !Garbles(judge, chunks, limit, j)
  {
    hide Arrives, Overflows;
  }

  lemma DecodedBytes(b: seq<byte>)
    ensures ByteLen(TextOf(b)) <= |b|
    ensures Decode(b).Some? ==> ByteLen(Decode(b).value) == |b|
  {
    hide Decode, ByteLen, Encode;
    if Decode(b).Some? {
      DecodeInvertsEncode(b, Decode(b).value);
      EncodeBytes(Decode(b).value);
    } else {
      NoBytes();
    }
  }

  lemma NoBytes()
    ensures ByteLen("") == 0
  {
  }

  /** The loop of `consume_sse`: each chunk is checked against the limit and read as text, then every complete event
      is taken. */
  method Consume(judge: string -> Verdict, chunks: seq<seq<byte>>, limit: nat, expectsAnswer: bool)
    returns (emitted: seq<string>, outcome: Outcome)
    ensures outcome == TooLarge <==> exists k :: Overflows(judge, chunks, limit, k)
    ensures outcome == NotText <==> exists k :: Garbles(judge, chunks, limit, k)
    ensures outcome != TooLarge && outcome != NotText
            ==> && emitted == Whole(judge, Concat(Texts(chunks))).emitted
                && outcome == OutcomeOf(Whole(judge, Concat(Texts(chunks))).end, expectsAnswer)
    ensures emitted <= Whole(judge, Concat(Texts(chunks))).emitted
  {
    hide Whole, Tail, ByteLen, OutcomeOf, Concat, Overflows, Garbles, Decode, Texts;
    emitted := [];
    var pending := "";
    var k := 0;
    ghost var texts := Texts(chunks);
    NothingRead(judge);
    assert texts[..|chunks|] == texts;
    while k < |chunks|
      invariant k <= |chunks|
      invariant Whole(judge, Concat(texts[..k])) == Progress(emitted, Open)
      invariant pending == Tail(Concat(texts[..k]))
      invariant ByteLen(pending) <= limit
      invariant forall j :: 0 <= j < k ==> Decode(chunks[j]).Some?
      invariant forall j :: 0 <= j < k ==> !Overflows(judge, chunks, limit, j)
      invariant forall j :: 0 <= j < k ==> !Garbles(judge, chunks, limit, j)
    {
      ArrivesWhen(judge, chunks, limit, k);
      PrefixStands(judge, texts, k, |chunks|);
      if ByteLen(pending) + |chunks[k]| > limit {
        OverflowIsFirst(judge, chunks, limit, k);
        return emitted, TooLarge;
      }
      var text := Decode(chunks[k]);
      if text.None? {
        NothingArrives(judge, chunks, limit, k + 1);
        return emitted, NotText;
      }
      TextsAt(chunks, k);
      DecodedBytes(chunks[k]);
      NextChunk(judge, texts, k);
      ByteLenAppend(pending, text.value);
      TailIsShorter(pending + text.value);
      var ended, sent;
      ended, sent, pending := TakeEvents(judge, pending + text.value);
      emitted := emitted + sent;
      k := k + 1;
      if ended != Open {
        NothingArrives(judge, chunks, limit, k);
        PrefixStands(judge, texts, k, |chunks|);
        OutcomesOf(ended, expectsAnswer);
        return emitted, OutcomeOf(ended, expectsAnswer);
      }
    }
    assert texts[..k] == texts;
    NothingArrives(judge, chunks, limit, k);
    OutcomesOf(Open, expectsAnswer);
    return emitted, OutcomeOf(Open, expectsAnswer);
  }

  /** A stream that stays open ends too early exactly when an answer was expected. */
  lemma OutcomesOf(end: End, expectsAnswer: bool)
    ensures OutcomeOf(end, expectsAnswer) != TooLarge && OutcomeOf(end, expectsAnswer) != NotText
    ensures OutcomeOf(end, expectsAnswer) == Malformed <==> end == BadData
    ensures OutcomeOf(end, expectsAnswer) == EndedEarly <==> end == Open && expectsAnswer
  {
  }

  lemma NothingRead(judge: string -> Verdict)
    ensures Whole(judge, "") == Progress([], Open) && Tail("") == "" && ByteLen("") == 0 && Concat([]) == ""
  {
  }

  function Flatten(chunks: seq<seq<byte>>): seq<byte> {
    if chunks == [] then [] else Flatten(chunks[..|chunks| - 1]) + chunks[|chunks| - 1]
  }

  /** Where every chunk is text by itself, the chunks hold the bytes of a text exactly when their texts are that
      text: no division at character boundaries changes what is read. */
  lemma {:induction false} ChunksOfText(chunks: seq<seq<byte>>, text: string)
    requires forall i :: 0 <= i < |chunks| ==> Decode(chunks[i]).Some?
    ensures Flatten(chunks) == Encode(text) <==> Concat(Texts(chunks)) == text
    decreases |chunks|
  {
    ChunksEncode(chunks);
    DecodeInvertsEncode(Flatten(chunks), Concat(Texts(chunks)));
    DecodeInvertsEncode(Flatten(chunks), text);
  }

  /** The last chunk's share of the text. */
  lemma ConcatLast(chunks: seq<seq<byte>>)
    requires chunks != []
    ensures var init := chunks[..|chunks| - 1];
            Concat(Texts(chunks)) == Concat(Texts(init)) + TextOf(chunks[|chunks| - 1])
  {
    hide TextOf;
    var init := chunks[..|chunks| - 1];
    assert Texts(chunks)[..|chunks| - 1] == Texts(init);
  }

  lemma {:induction false} ChunksEncode(chunks: seq<seq<byte>>)
    requires forall i :: 0 <= i < |chunks| ==> Decode(chunks[i]).Some?
    ensures Encode(Concat(Texts(chunks))) == Flatten(chunks)
    decreases |chunks|
  {
    if chunks != [] {
      var init, last := chunks[..|chunks| - 1], chunks[|chunks| - 1];
      ChunksEncode(init);
      ConcatLast(chunks);
      hide Decode, Texts, Concat, Encode;
      DecodeInvertsEncode(last, TextOf(last));
      EncodeAppend(Concat(Texts(init)), TextOf(last));
    }
  }

  lemma {:induction false} TextsAreNoLonger(chunks: seq<seq<byte>>)
    ensures ByteLen(Concat(Texts(chunks))) <= |Flatten(chunks)|
    decreases |chunks|
  {
    if chunks == [] {
      NoBytes();
    } else {
      var init, last := chunks[..|chunks| - 1], chunks[|chunks| - 1];
      TextsAreNoLonger(init);
      ConcatLast(chunks);
      hide Decode, ByteLen, Texts, Concat;
      DecodedBytes(last);
      ByteLenAppend(Concat(Texts(init)), TextOf(last));
    }
  }

  lemma {:induction false} FlattenSplits(chunks: seq<seq<byte>>, k: nat)
    requires k <= |chunks|
    ensures |Flatten(chunks[..k])| <= |Flatten(chunks)|
    decreases |chunks|
  {
    if k < |chunks| {
      FlattenSplits(chunks[..|chunks| - 1], k);
      assert chunks[..|chunks| - 1][..k] == chunks[..k];
    } else {
      assert chunks[..k] == chunks;
    }
  }

  /** A stream that fits the limit as a whole never overflows, however it is divided. */
  lemma SmallStreamsNeverOverflow(judge: string -> Verdict, chunks: seq<seq<byte>>, limit: nat, k: nat)
    requires |Flatten(chunks)| <= limit
    ensures !Overflows(judge, chunks, limit, k)
  {
    if k < |chunks| {
      hide Whole, Tail, ByteLen, Decode, Texts, Concat;
      FlattenSplits(chunks, k + 1);
      assert chunks[..k + 1][..k] == chunks[..k];
      TextsAreNoLonger(chunks[..k]);
      TextsPrefix(chunks, k);
      TailIsShorter(Concat(Texts(chunks)[..k]));
    }
  }
}
