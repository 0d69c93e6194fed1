/** Event streams as servers write them, and what the reader of http_transport.rs makes of them. */
module SseWriting {
  import opened Wrappers
  import opened SseStream

  // ----- one event ----------------------------------------------------------------------------------------------

  predicate OnOneLine(s: string) {
    forall i :: 0 <= i < |s| ==> s[i] != '\n' && s[i] != '\r'
  }

  /** A line of an event: data, with or without the space after the colon, or anything else, such as another field or a
      comment; each ended by LF or by CRLF. */
  datatype Line =
    | Data(value: string, spaced: bool, crlf: bool)
    | Other(text: string, crlf: bool)
  {
    function Raw(): string {
      match this
      case Data(value, true, _) => "data: " + value
      case Data(value, false, _) => "data:" + value
      case Other(text, _) => text
    }

    function Eol(): string {
      if crlf then "\r\n" else "\n"
    }

    /** Nothing else is data, no line is blank, and a value is spaced out from the colon if it starts with a space. */
    predicate Proper() {
      && OnOneLine(Raw())
      && match this
         case Data(value, spaced, _) => spaced || value == "" || value[0] != ' '
         case Other(text, _) => text != "" && (|text| < 5 || text[..5] != "data:")
    }
  }

  predicate Event(lines: seq<Line>) {
    lines != [] && forall l :: l in lines ==> l.Proper()
  }

  /** The lines of one event, without the end of the last one. */
  function Body(lines: seq<Line>): string {
    if lines == [] then ""
    else lines[0].Raw() + if |lines| == 1 then "" else lines[0].Eol() + Body(lines[1..])
  }

  /** The event, ended by a blank line of the kind of its last one. */
  function Sent(lines: seq<Line>): string {
    if lines == [] then "" else Body(lines) + lines[|lines| - 1].Eol() + lines[|lines| - 1].Eol()
  }

  /** The values of the data lines, in order. */
  function Values(lines: seq<Line>): seq<string> {
    if lines == [] then [] else (if lines[0].Data? then [lines[0].value] else []) + Values(lines[1..])
  }

  function OfParts(parts: seq<string>): Option<string> {
    if parts == [] then None else Some(Join(parts))
  }

  function Carried(lines: seq<Line>): Option<string> {
    OfParts(Values(lines))
  }

  /** Splits a text at its line feeds; it undoes the join of lines. */
  function Split(s: string): (r: seq<string>)
    ensures r != []
  {
    if s == "" then [""]
    else
      var rest := Split(s[1..]);
      if s[0] == '\n' then [""] + rest else [[s[0]] + rest[0]] + rest[1..]
  }

  lemma {:induction false} SplitAfter(line: string, rest: string)
    requires OnOneLine(line)
    ensures Split(line) == [line] && Split(line + "\n" + rest) == [line] + Split(rest)
  {
    if line == "" {
      assert line + "\n" + rest == "\n" + rest;
    } else {
      assert (line + "\n" + rest)[1..] == line[1..] + "\n" + rest;
      SplitAfter(line[1..], rest);
      assert [line[0]] + line[1..] == line;
    }
  }

  lemma {:induction false} JoinSplits(parts: seq<string>)
    requires parts != [] && forall p :: p in parts ==> OnOneLine(p)
    ensures Split(Join(parts)) == parts
  {
    assert parts[0] in parts && forall p :: p in parts[1..] ==> p in parts;
    if |parts| == 1 {
      SplitAfter(parts[0], "");
    } else {
      JoinSplits(parts[1..]);
      SplitAfter(parts[0], Join(parts[1..]));
    }
  }

  // ----- where an event ends ------------------------------------------------------------------------------------

  predicate Ending(c: char) {
    c == '\n' || c == '\r'
  }

  lemma RawStarts(l: Line)
    requires l.Proper()
    ensures l.Raw() != "" && !Ending(l.Raw()[0]) && !Ending(l.Raw()[|l.Raw()| - 1])
    ensures forall i :: 0 <= i < |l.Raw()| ==> !Ending(l.Raw()[i])
  {
  }

  predicate IsEol(s: string) {
    s == "\n" || s == "\r\n"
  }

  lemma EolIs(l: Line)
    ensures IsEol(l.Eol())
  {
  }

  /** Every line feed is followed by the start of a line, and no line end stands at either side. */
  predicate Unbroken(s: string) {
    && s != "" && !Ending(s[0]) && !Ending(s[|s| - 1])
    && forall i :: 0 <= i < |s| - 1 && s[i] == '\n' ==> !Ending(s[i + 1])
  }

  lemma {:induction false} BodyIsUnbroken(lines: seq<Line>)
    requires Event(lines)
    ensures Unbroken(Body(lines))
  {
    hide Line.Proper, Line.Raw;
    assert lines[0] in lines;
    RawStarts(lines[0]);
    EolIs(lines[0]);
    hide Line.Eol, IsEol;
    if |lines| > 1 {
      assert Event(lines[1..]);
      BodyIsUnbroken(lines[1..]);
      JoinsQuietly(lines[0].Raw(), lines[0].Eol(), Body(lines[1..]));
    }
  }

  lemma JoinsQuietly(line: string, eol: string, rest: string)
    requires line != "" && (forall i :: 0 <= i < |line| ==> !Ending(line[i])) && IsEol(eol)
    requires Unbroken(rest)
    ensures Unbroken(line + (eol + rest))
  {
    var s, n := line + (eol + rest), |line| + |eol|;
    assert s[|s| - 1] == rest[|rest| - 1];
    forall i | 0 <= i < |s| - 1 && s[i] == '\n' ensures !Ending(s[i + 1]) {
      if i >= n {
        assert s[i] == rest[i - n] && s[i + 1] == rest[i + 1 - n];
      } else {
        assert i == n - 1;
        assert s[i + 1] == rest[0];
      }
    }
  }

  lemma NoBoundaryWithin(body: string, more: string)
    requires Unbroken(body)
    ensures forall i :: 0 <= i < |body| ==> !LfAt(body + more, i) && !CrlfAt(body + more, i)
  {
    var s := body + more;
    assert forall i :: 0 <= i < |body| ==> s[i] == body[i];
  }

  lemma BoundaryAfter(body: string, eol: string, rest: string)
    requires Unbroken(body) && IsEol(eol)
    ensures IsBoundary(body + (eol + eol + rest), Boundary(|body|, |body| + 2 * |eol|))
  {
    NoBoundaryWithin(body, eol + eol + rest);
    hide Unbroken;
    var s := body + (eol + eol + rest);
    assert s[|body|..] == eol + eol + rest;
    if eol == "\n" {
      assert s[|body|] == '\n' && s[|body| + 1] == '\n';
    } else {
      assert s[|body|] == '\r' && s[|body| + 1] == '\n' && s[|body| + 2] == '\r' && s[|body| + 3] == '\n';
    }
  }

  lemma SentIs(lines: seq<Line>, rest: string)
    requires lines != []
    ensures var body, eol := Body(lines), lines[|lines| - 1].Eol();
            && Sent(lines) + rest == body + (eol + eol + rest) && |Sent(lines)| == |body| + 2 * |eol|
            && IsEol(eol)
  {
    hide Body;
  }

  lemma NextIs(s: string, t: string, b: Boundary)
    requires s == t && IsBoundary(t, b)
    ensures NextEvent(s) == Some(b)
  {
    NextEventIsTheBoundary(s);
    hide NextEvent, IsBoundary;
  }

  lemma SentIsOneEvent(lines: seq<Line>, rest: string)
    requires Event(lines)
    ensures NextEvent(Sent(lines) + rest) == Some(Boundary(|Body(lines)|, |Sent(lines)|))
  {
    assert lines != [];
    hide *;
    var body, eol := Body(lines), lines[|lines| - 1].Eol();
    SentIs(lines, rest);
    BodyIsUnbroken(lines);
    BoundaryAfter(body, eol, rest);
    NextIs(Sent(lines) + rest, body + (eol + eol + rest), Boundary(|body|, |Sent(lines)|));
  }

  // ----- what an event gives ------------------------------------------------------------------------------------

  lemma {:induction false} LineEndAfter(line: string, rest: string)
    requires forall i :: 0 <= i < |line| ==> line[i] != '\n'
    ensures LineEnd(line + "\n" + rest) == |line| + 1
    ensures LineEnd(line) == |line|
    decreases |line|
  {
    if line == "" {
      assert line + "\n" + rest == "\n" + rest;
    } else {
      assert (line + "\n" + rest)[1..] == line[1..] + "\n" + rest;
      LineEndAfter(line[1..], rest);
    }
  }

  /** A line is read back without its end, of either kind. */
  lemma LinesAfter(line: string, eol: string, rest: string)
    requires line != "" && OnOneLine(line) && IsEol(eol)
    ensures Lines(line + (eol + rest)) == [line] + Lines(rest)
    ensures Lines(line) == [line]
  {
    var head := if eol == "\n" then line else line + "\r";
    LineEndAfter(head, rest);
    LineEndAfter(line, "");
    var s := line + (eol + rest);
    assert s == head + "\n" + rest;
    assert s[..|head| + 1] == head + "\n" && s[|head| + 1..] == rest;
    assert Unended(head + "\n") == line;
    assert line[..|line|] == line && line[|line|..] == "";
    assert Lines("") == [];
  }

  function Raws(lines: seq<Line>): seq<string> {
    seq(|lines|, i requires 0 <= i < |lines| => lines[i].Raw())
  }

  lemma {:induction false} BodyLines(lines: seq<Line>)
    requires Event(lines)
    ensures Lines(Body(lines)) == Raws(lines)
  {
    hide Line.Proper, Line.Raw;
    assert lines[0] in lines;
    RawStarts(lines[0]);
    EolIs(lines[0]);
    hide Line.Eol, IsEol;
    LinesAfter(lines[0].Raw(), lines[0].Eol(), Body(lines[1..]));
    if |lines| == 1 {
      assert Body(lines) == lines[0].Raw();
    } else {
      BodyLines(lines[1..]);
    }
    hide OnOneLine, Lines;
  }

  lemma RawIsData(l: Line)
    requires l.Proper()
    ensures DataOf(l.Raw()) == if l.Data? then Some(l.value) else None
  {
    match l
    case Data(value, spaced, _) =>
      var raw := l.Raw();
      assert raw[..5] == "data:";
      assert spaced ==> raw[6..] == value;
      assert !spaced ==> raw[5..] == value;
    case Other(text, _) =>
      assert |text| >= 5 ==> text[..5] != "data:";
  }

  lemma {:induction false} RawsGiveValues(lines: seq<Line>)
    requires forall l :: l in lines ==> l.Proper()
    ensures AllData(Raws(lines)) == Values(lines)
  {
    hide Line.Proper, Line.Raw, DataOf;
    if lines != [] {
      assert lines[0] in lines && forall l :: l in lines[1..] ==> l in lines;
      RawIsData(lines[0]);
      RawsGiveValues(lines[1..]);
      assert Raws(lines)[1..] == Raws(lines[1..]);
    }
  }

  /** An event gives the join of its data values in order, whatever other lines are among them and however each line is
      ended, and nothing exactly when it has no data line. */
  lemma EventGivesItsData(lines: seq<Line>)
    requires Event(lines)
    ensures ParseData(Body(lines)) == Carried(lines)
    ensures ParseData(Body(lines)) == None <==> forall l :: l in lines ==> !l.Data?
  {
    BodyLines(lines);
    RawsGiveValues(lines);
    NoValues(lines);
    hide Lines, Body, AllData, Values, Join, Line.Raw, Line.Proper;
  }

  lemma {:induction false} NoValues(lines: seq<Line>)
    ensures Values(lines) == [] <==> forall l :: l in lines ==> !l.Data?
  {
    if lines != [] {
      NoValues(lines[1..]);
      assert lines[0] in lines && forall l :: l in lines <==> l == lines[0] || l in lines[1..];
    }
  }

  // ----- a stream of events -------------------------------------------------------------------------------------

  function SentAll(events: seq<seq<Line>>): string {
    if events == [] then "" else Sent(events[0]) + SentAll(events[1..])
  }

  function Parsed(events: seq<string>): seq<Option<string>> {
    seq(|events|, i requires 0 <= i < |events| => ParseData(events[i]))
  }

  function AllCarried(events: seq<seq<Line>>): seq<Option<string>> {
    seq(|events|, i requires 0 <= i < |events| => Carried(events[i]))
  }

  lemma SentGoesFirst(lines: seq<Line>, rest: string)
    requires Event(lines)
    ensures Events(Sent(lines) + rest) == [Body(lines)] + Events(rest)
    ensures Tail(Sent(lines) + rest) == Tail(rest)
  {
    hide NextEvent, Body, Event;
    SentIsOneEvent(lines, rest);
    var s := Sent(lines) + rest;
    assert s[..|Body(lines)|] == Body(lines) && s[|Sent(lines)|..] == rest;
  }

  lemma ParsedFirst(event: string, events: seq<string>)
    ensures Parsed([event] + events) == [ParseData(event)] + Parsed(events)
  {
    hide ParseData;
  }

  lemma CarriedFirst(event: seq<Line>, events: seq<seq<Line>>)
    ensures AllCarried([event] + events) == [Carried(event)] + AllCarried(events)
  {
    hide Carried;
  }

  lemma NothingToFind()
    ensures Events("") == [] && Tail("") == "" && Parsed([]) == AllCarried([])
  {
  }

  /** A stream of events, each written with any lines in any order, is read as those events and nothing more. */
  lemma {:induction false} WrittenEventsAreRead(events: seq<seq<Line>>)
    requires forall e :: e in events ==> Event(e)
    ensures Parsed(Events(SentAll(events))) == AllCarried(events)
    ensures Tail(SentAll(events)) == ""
  {
    hide Sent, ParseData, AllCarried, Parsed, Events, Tail, Body, Event, Carried;
    NothingToFind();
    if events != [] {
      var first := events[0];
      assert first in events && forall e :: e in events[1..] ==> e in events;
      WrittenEventsAreRead(events[1..]);
      SentGoesFirst(first, SentAll(events[1..]));
      EventGivesItsData(first);
      ParsedFirst(Body(first), Events(SentAll(events[1..])));
      CarriedFirst(first, events[1..]);
      assert events == [first] + events[1..];
    }
  }

  // ----- what is handed on --------------------------------------------------------------------------------------

  /** The data there is, in order. */
  function Present(parsed: seq<Option<string>>): seq<string> {
    if parsed == [] then [] else (if parsed[0].Some? then [parsed[0].value] else []) + Present(parsed[1..])
  }

  /** What is handed on of all the data is a prefix of it, of messages only but that an answer may be the last: all of
      it if the stream stays open, up to the first answer if it is answered, and up to the first refused if one is
      refused before. */
  ghost predicate HandsOn(judge: string -> Verdict, data: seq<string>, p: Progress) {
    var n := |p.emitted|;
    && p.emitted <= data
    && (forall i :: 0 <= i < n - 1 ==> judge(data[i]) == Message)
    && match p.end
       case Open => n == |data| && (n > 0 ==> judge(data[n - 1]) == Message)
       case Answered => n > 0 && judge(data[n - 1]) == Answer
       case BadData => n < |data| && judge(data[n]) == Refused && (n > 0 ==> judge(data[n - 1]) == Message)
  }

  lemma HandsOnOne(judge: string -> Verdict, first: string, rest: seq<string>, p: Progress)
    requires judge(first) == Message && HandsOn(judge, rest, p)
    ensures HandsOn(judge, [first] + rest, Progress([first] + p.emitted, p.end))
  {
    var all, n := [first] + rest, |p.emitted|;
    forall i | 0 <= i <= n ensures judge(all[i]) == if i == n && n > 0 && p.end == Answered then Answer else Message {
      if i > 0 { assert all[i] == rest[i - 1]; }
    }
    assert n < |rest| ==> all[n + 1] == rest[n];
  }

  lemma {:induction false} ProcessHandsOn(judge: string -> Verdict, events: seq<string>)
    ensures HandsOn(judge, Present(Parsed(events)), Process(judge, events))
  {
    hide ParseData;
    if events != [] {
      var data, rest := ParseData(events[0]), events[1..];
      assert Parsed(events)[1..] == Parsed(rest);
      if data.Some? && judge(data.value) == Message {
        ProcessHandsOn(judge, rest);
        HandsOnOne(judge, data.value, Present(Parsed(rest)), Process(judge, rest));
      } else if data.None? {
        ProcessHandsOn(judge, rest);
        assert Present(Parsed(events)) == Present(Parsed(rest));
      }
    }
  }

  /** The messages a server writes reach the agent, in order and as they were written: all of them, or those up to the
      answer, or those before the first that is no proper message. */
  lemma WrittenMessagesAreRead(judge: string -> Verdict, events: seq<seq<Line>>)
    requires forall e :: e in events ==> Event(e)
    ensures HandsOn(judge, Present(AllCarried(events)), Whole(judge, SentAll(events)))
  {
    WrittenEventsAreRead(events);
    ProcessHandsOn(judge, Events(SentAll(events)));
    hide Parsed, AllCarried, Events, SentAll, HandsOn, Process;
  }

  // ----- line ends of both kinds around a blank line ------------------------------------------------------------

  /** An event whose blank line may be of either kind. */
  function Closed(lines: seq<Line>, crlf: bool): string
    requires lines != []
  {
    Body(lines) + lines[|lines| - 1].Eol() + (if crlf then "\r\n" else "\n")
  }

  lemma LastLineWithReturn(l: Line)
    requires l.Proper()
    ensures Lines(l.Raw() + "\r") == [l.Raw() + "\r"]
  {
    RawStarts(l);
    hide Line.Proper, Line.Raw;
    var line := l.Raw() + "\r";
    LineEndAfter(line, "");
    assert line[..|line|] == line && line[|line|..] == "" && Lines("") == [];
  }

  lemma BodyFirst(lines: seq<Line>, more: string)
    requires |lines| > 1
    ensures Body(lines) + more == lines[0].Raw() + (lines[0].Eol() + (Body(lines[1..]) + more))
  {
    hide Line.Raw, Line.Eol;
  }

  lemma FirstBeforeReturn(lines: seq<Line>)
    requires |lines| > 1 && lines[0].Proper()
    ensures Lines(Body(lines) + "\r") == [lines[0].Raw()] + Lines(Body(lines[1..]) + "\r")
  {
    hide *;
    RawStarts(lines[0]);
    RawOnOneLine(lines[0]);
    EolIs(lines[0]);
    LinesAfter(lines[0].Raw(), lines[0].Eol(), Body(lines[1..]) + "\r");
    BodyFirst(lines, "\r");
  }

  lemma RawOnOneLine(l: Line)
    requires l.Proper()
    ensures OnOneLine(l.Raw())
  {
  }

  lemma OnlyBeforeReturn(lines: seq<Line>)
    requires |lines| == 1 && lines[0].Proper()
    ensures Lines(Body(lines) + "\r") == Raws(lines[..0]) + [lines[0].Raw() + "\r"]
  {
    LastLineWithReturn(lines[0]);
    hide Line.Proper, Line.Raw, Lines;
    assert Body(lines) == lines[0].Raw() && Raws(lines[..0]) == [];
  }

  lemma {:induction false} LinesBeforeReturn(lines: seq<Line>)
    requires Event(lines)
    ensures Lines(Body(lines) + "\r") == Raws(lines[..|lines| - 1]) + [lines[|lines| - 1].Raw() + "\r"]
  {
    assert lines[0] in lines;
    hide Line.Proper, Line.Raw, Lines, Body, Raws;
    if |lines| == 1 {
      OnlyBeforeReturn(lines);
    } else {
      var rest, n := lines[1..], |lines| - 1;
      FirstBeforeReturn(lines);
      assert Event(rest);
      LinesBeforeReturn(rest);
      assert lines[..n] == [lines[0]] + rest[..n - 1];
      RawsFirst(lines[0], rest[..n - 1]);
      Regroup([lines[0].Raw()], Raws(rest[..n - 1]), [lines[n].Raw() + "\r"]);
    }
  }

  lemma Regroup(a: seq<string>, b: seq<string>, c: seq<string>)
    ensures a + (b + c) == (a + b) + c
  {
  }

  lemma RawsFirst(first: Line, rest: seq<Line>)
    ensures Raws([first] + rest) == [first.Raw()] + Raws(rest)
  {
    hide Line.Raw;
  }

  lemma {:induction false} AllDataAppend(a: seq<string>, b: seq<string>)
    ensures AllData(a + b) == AllData(a) + AllData(b)
  {
    hide DataOf;
    if a == [] {
      assert a + b == b;
    } else {
      assert (a + b)[1..] == a[1..] + b;
      AllDataAppend(a[1..], b);
    }
  }

  lemma {:induction false} ValuesAppend(a: seq<Line>, b: seq<Line>)
    ensures Values(a + b) == Values(a) + Values(b)
  {
    if a == [] {
      assert a + b == b;
    } else {
      assert (a + b)[1..] == a[1..] + b;
      ValuesAppend(a[1..], b);
    }
  }

  lemma {:induction false} JoinLast(parts: seq<string>, last: string, more: string)
    ensures Join(parts + [last + more]) == Join(parts + [last]) + more
  {
    if parts != [] {
      assert (parts + [last + more])[1..] == parts[1..] + [last + more] && (parts + [last])[1..] == parts[1..] + [last];
      JoinLast(parts[1..], last, more);
    }
  }

  lemma ReturnIsData(l: Line)
    requires l.Proper()
    ensures DataOf(l.Raw() + "\r") == if l.Data? then Some(l.value + "\r") else None
  {
    match l
    case Data(value, spaced, _) =>
      var raw := l.Raw() + "\r";
      assert raw[..5] == "data:";
      assert spaced ==> raw[6..] == value + "\r";
      assert !spaced ==> raw[5..] == value + "\r";
    case Other(text, _) =>
      var raw := text + "\r";
      assert |raw| > 5 ==> raw[..5] == text[..5];
      assert raw[|raw| - 1] == '\r';
  }

  lemma DataBeforeReturn(lines: seq<Line>)
    requires Event(lines)
    ensures var n := |lines| - 1;
            AllData(Lines(Body(lines) + "\r"))
            == Values(lines[..n]) + if lines[n].Data? then [lines[n].value + "\r"] else []
  {
    var n := |lines| - 1;
    var init, last := lines[..n], lines[n];
    assert last in lines && forall l :: l in init ==> l in lines;
    LinesBeforeReturn(lines);
    RawsGiveValues(init);
    AllDataAppend(Raws(init), [last.Raw() + "\r"]);
    ReturnIsData(last);
    OneLine(last);
    hide *;
  }

  lemma CarriedInParts(lines: seq<Line>)
    requires lines != []
    ensures var n := |lines| - 1;
            Carried(lines) == OfParts(Values(lines[..n]) + if lines[n].Data? then [lines[n].value] else [])
  {
    var n := |lines| - 1;
    ValuesAppend(lines[..n], [lines[n]]);
    OneLine(lines[n]);
    assert lines == lines[..n] + [lines[n]];
    hide Join, Values;
  }

  lemma LastTells(parts: seq<string>, last: string)
    ensures OfParts(parts + [last + "\r"]) != OfParts(parts + [last])
  {
    JoinLast(parts, last, "\r");
    hide Join;
  }

  /** A carriage return left behind ends up in the last value. */
  lemma ReturnSpoilsTheData(lines: seq<Line>)
    requires Event(lines)
    ensures ParseData(Body(lines) + "\r") == Carried(lines) <==> !lines[|lines| - 1].Data?
  {
    var n := |lines| - 1;
    DataBeforeReturn(lines);
    CarriedInParts(lines);
    ParseIs(Body(lines) + "\r");
    if lines[n].Data? { LastTells(Values(lines[..n]), lines[n].value); }
    hide *;
  }

  lemma ParseIs(event: string)
    ensures ParseData(event) == OfParts(AllData(Lines(event)))
  {
  }

  lemma OneLine(last: Line)
    ensures Values([last]) == if last.Data? then [last.value] else []
    ensures AllData([last.Raw() + "\r"])
            == if DataOf(last.Raw() + "\r").Some? then [DataOf(last.Raw() + "\r").value] else []
  {
    hide DataOf, Line.Raw;
    assert Values([]) == [] && AllData([]) == [];
  }

  lemma CrlfAfterLf(body: string)
    requires Unbroken(body)
    ensures forall b :: !IsBoundary(body + "\n\r\n", b)
  {
    NoBoundaryWithin(body, "\n\r\n");
    hide Unbroken;
    var s := body + "\n\r\n";
    assert s[|body|] == '\n' && s[|body| + 1] == '\r' && s[|body| + 2] == '\n';
  }

  lemma LfAfterCrlf(body: string)
    requires Unbroken(body)
    ensures IsBoundary(body + "\r\n\n", Boundary(|body| + 1, |body| + 3))
  {
    NoBoundaryWithin(body, "\r\n\n");
    hide Unbroken;
    var s := body + "\r\n\n";
    assert s[|body|] == '\r' && s[|body| + 1] == '\n' && s[|body| + 2] == '\n';
  }

  lemma NoneIs(s: string, t: string)
    requires s == t && forall b :: !IsBoundary(t, b)
    ensures NextEvent(s) == None
  {
    NextEventIsTheBoundary(s);
    hide NextEvent, IsBoundary;
  }

  lemma ClosedIs(lines: seq<Line>, crlf: bool)
    requires lines != [] && crlf != lines[|lines| - 1].crlf
    ensures Closed(lines, crlf) == Body(lines) + if crlf then "\n\r\n" else "\r\n\n"
  {
    hide Body;
  }

  lemma MixedBoundary(lines: seq<Line>, crlf: bool)
    requires Event(lines) && crlf != lines[|lines| - 1].crlf
    ensures NextEvent(Closed(lines, crlf)) == if crlf then None else Some(Boundary(|Body(lines)| + 1, |Closed(lines, crlf)|))
  {
    assert lines != [];
    hide *;
    var body := Body(lines);
    BodyIsUnbroken(lines);
    ClosedIs(lines, crlf);
    if crlf {
      CrlfAfterLf(body);
      NoneIs(Closed(lines, crlf), body + "\n\r\n");
    } else {
      LfAfterCrlf(body);
      NextIs(Closed(lines, crlf), body + "\r\n\n", Boundary(|body| + 1, |Closed(lines, crlf)|));
    }
  }

  /** The standard lets the blank line be ended either way. The event is then read as it was written exactly when its last
      line is ended the same way, or ended by CRLF and not data: after LF a blank CRLF is no boundary, and after CRLF a
      blank LF leaves the carriage return behind. */
  lemma ClosedEventIsReadWhen(lines: seq<Line>, crlf: bool)
    requires Event(lines)
    ensures var s, last := Closed(lines, crlf), lines[|lines| - 1];
            (exists b :: NextEvent(s) == Some(b) && b.consumed == |s| && ParseData(s[..b.event]) == Carried(lines))
            <==> crlf == last.crlf || (last.crlf && !last.Data?)
  {
    var s, body, last := Closed(lines, crlf), Body(lines), lines[|lines| - 1];
    if crlf == last.crlf {
      SentIsOneEvent(lines, "");
      EventGivesItsData(lines);
      ClosedAlike(lines);
    } else {
      MixedBoundary(lines, crlf);
      ReturnSpoilsTheData(lines);
      ClosedUnalike(lines, crlf);
    }
    hide *;
    assert forall b :: NextEvent(s) == Some(b) ==> b == NextEvent(s).value;
    if NextEvent(s).Some? {
      assert NextEvent(s) == Some(NextEvent(s).value);
    }
  }

  lemma ClosedAlike(lines: seq<Line>)
    requires lines != []
    ensures var last := lines[|lines| - 1];
            Closed(lines, last.crlf) == Sent(lines) + "" && Closed(lines, last.crlf)[..|Body(lines)|] == Body(lines)
  {
    hide Body;
  }

  lemma ClosedUnalike(lines: seq<Line>, crlf: bool)
    requires lines != [] && crlf != lines[|lines| - 1].crlf
    ensures |Closed(lines, crlf)| == |Body(lines)| + 3
    ensures !crlf ==> Closed(lines, crlf)[..|Body(lines)| + 1] == Body(lines) + "\r"
  {
    hide Body;
  }

  lemma OneDataLine(crlf: bool) returns (lines: seq<Line>)
    ensures Event(lines) && |lines| == 1 && lines[0] == Data("x", true, crlf)
    ensures Body(lines) == "data: x" && Carried(lines) == Some("x")
  {
    lines := [Data("x", true, crlf)];
    assert lines[1..] == [];
    assert Values(lines) == ["x"];
  }

  /** One message twice: lost, and with a carriage return that was not in it. */
  lemma MixedEndsAreMisread()
    ensures NextEvent("data: x\n\r\n") == None
    ensures NextEvent("data: x\r\n\n") == Some(Boundary(8, 10)) && ParseData("data: x\r") == Some("x\r")
  {
    hide NextEvent, Body, Lines, AllData, Carried, Event;
    var a := OneDataLine(false);
    MixedBoundary(a, true);
    assert Closed(a, true) == "data: x\n\r\n";
    var b := OneDataLine(true);
    MixedBoundary(b, false);
    assert Closed(b, false) == "data: x\r\n\n";
    DataBeforeReturn(b);
    assert b[..0] == [] && Values([]) == [] && "x" + "\r" == "x\r";
    assert Body(b) + "\r" == "data: x\r";
    assert AllData(Lines("data: x\r")) == ["x\r"];
    ParseIs("data: x\r");
  }
}
