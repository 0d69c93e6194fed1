/** A spool file as text: one JSON record per line (outbox.rs, `read_records` and
    `write_records_atomically`). */
module SpoolFile {
  import opened Wrappers
  import opened Text
  import opened Json
  import opened JsonParse
  import opened Spool

  // ----- one record from one line --------------------------------------------------------------------

  function DigitsValue(t: string): nat
    requires forall i :: 0 <= i < |t| ==> Digit(t[i])
  {
    if t == "" then 0
    else
      assert Digit(t[|t| - 1]);
      DigitsValue(t[..|t| - 1]) * 10 + (t[|t| - 1] as int - '0' as int)
  }

  /** An unsigned integer of at most the given size. */
  function ReadUnsigned(v: Value, limit: nat): Option<nat> {
    if v.Num? && v.token != "" && (forall c :: c in v.token ==> Digit(c)) && DigitsValue(v.token) < limit
    then Some(DigitsValue(v.token)) else None
  }

  /** The field of that name: `Some(None)` when it is absent, `None` when it is there twice. */
  function Field(members: seq<Member>, key: string): Option<Option<Value>> {
    if members == [] then Some(Option.None)
    else
      var rest := Field(members[1..], key);
      if members[0].key != key then rest
      else if rest == Some(Option.None) then Some(Some(members[0].value)) else Option.None
  }

  const U32_LIMIT: nat := 0x1_0000_0000
  const U128_LIMIT: nat := 0x1_0000_0000_0000_0000_0000_0000_0000_0000

  function ReadText(f: Option<Option<Value>>): Option<string> {
    if f.Some? && f.value.Some? && f.value.value.Str? then Some(f.value.value.s) else None
  }

  /** A defaulted counter: 0 when absent. */
  function ReadCounter(f: Option<Option<Value>>, limit: nat): Option<nat> {
    if f.None? then None else if f.value.None? then Some(0) else ReadUnsigned(f.value.value, limit)
  }

  function ReadError(f: Option<Option<Value>>): Option<Option<string>> {
    if f.None? then None
    else if f.value.None? || f.value.value.Null? then Some(Option.None)
    else if f.value.value.Str? then Some(Some(f.value.value.s)) else None
  }

  function FromJson(v: Value): Option<SpoolRecord> {
    if !v.Obj? then None
    else
      var m := v.members;
      var id, payload := ReadText(Field(m, "event_id")), ReadText(Field(m, "payload"));
      var attempts, next := ReadCounter(Field(m, "attempts"), U32_LIMIT), ReadCounter(Field(m, "next_attempt_ms"), U128_LIMIT);
      var error, created := ReadError(Field(m, "last_error")), ReadCounter(Field(m, "created_ms"), U128_LIMIT);
      if id.None? || payload.None? || attempts.None? || next.None? || error.None? || created.None? then None
      else Some(SpoolRecord(id.value, payload.value, attempts.value, next.value, error.value, created.value))
  }

  /** A line that is not a record, a torn one among them, is passed over. */
  function ReadLine(line: string): seq<SpoolRecord> {
    var v := Parse(line);
    var r := if v.None? then None else FromJson(v.value);
    if r.None? then [] else [r.value]
  }

  // ----- the file ------------------------------------------------------------------------------------

  function NewlineAt(text: string): (i: nat)
    ensures i <= |text|
    ensures i < |text| ==> text[i] == '\n'
    ensures forall j :: 0 <= j < i ==> text[j] != '\n'
  {
    if text == "" || text[0] == '\n' then 0 else 1 + NewlineAt(text[1..])
  }

  function StripReturn(line: string): string {
    if line != "" && line[|line| - 1] == '\r' then line[..|line| - 1] else line
  }

  function ReadRecords(text: string): seq<SpoolRecord>
    decreases |text|
  {
    if text == "" then []
    else
      var i := NewlineAt(text);
      if i == |text| then ReadLine(text)
      else ReadLine(StripReturn(text[..i])) + ReadRecords(text[i + 1..])
  }

  function FileText(records: seq<SpoolRecord>): string {
    if records == [] then "" else Line(records[0]) + "\n" + FileText(records[1..])
  }

  /** The fields fit the widths they are declared with. */
  predicate InWidth(r: SpoolRecord) {
    r.attempts < U32_LIMIT && r.nextAttemptMs < U128_LIMIT && r.createdMs < U128_LIMIT
  }

  method Read(text: string) returns (records: seq<SpoolRecord>)
    ensures records == ReadRecords(text)
  {
    hide ReadLine;
    records := [];
    var rest := text;
    while rest != ""
      invariant ReadRecords(text) == records + ReadRecords(rest)
      decreases |rest|
    {
      var i := NewlineAt(rest);
      if i == |rest| {
        records := records + ReadLine(rest);
        rest := "";
      } else {
        records := records + ReadLine(StripReturn(rest[..i]));
        rest := rest[i + 1..];
      }
    }
  }

  lemma Regroup(a: string, b: string, c: string, d: string)
    ensures a + (b + c + d) == a + b + c + d
  {
  }

  method Write(records: seq<SpoolRecord>) returns (text: string)
    ensures text == FileText(records)
  {
    hide Line;
    text := "";
    var i := 0;
    while i < |records|
      invariant i <= |records| && FileText(records) == text + FileText(records[i..])
    {
      assert records[i..][1..] == records[i + 1..];
      Regroup(text, Line(records[i]), "\n", FileText(records[i + 1..]));
      text := text + Line(records[i]) + "\n";
      i := i + 1;
    }
  }

  // ----- one line round-trips ------------------------------------------------------------------------

  lemma {:induction false} DecimalValue(n: nat)
    ensures DigitsValue(Decimal(n)) == n
  {
    var s := Decimal(n);
    if n < 10 {
      assert s[..0] == "";
    } else {
      DecimalValue(n / 10);
      assert s[..|s| - 1] == Decimal(n / 10);
    }
  }

  lemma {:induction false} DigitsOnly(t: string)
    requires forall i :: 0 <= i < |t| ==> Digit(t[i])
    ensures DropDigits(t) == ""
  {
    if t != "" { DigitsOnly(t[1..]); }
  }

  lemma {:induction false} DecimalFirst(n: nat)
    ensures Decimal(n)[0] == '0' ==> n == 0
  {
    if n >= 10 { DecimalFirst(n / 10); }
  }

  lemma DecimalToken(n: nat)
    ensures NumberToken(Decimal(n))
    ensures forall limit: nat | n < limit :: ReadUnsigned(Num(Decimal(n)), limit) == Some(n)
  {
    var t := Decimal(n);
    DecimalFirst(n);
    DecimalValue(n);
    DigitsOnly(t);
    assert forall i :: 0 <= i < |t| ==> Digit(t[i]) && NumberChar(t[i]);
    assert JsonNumber(t) by {
      if t[0] == '0' { assert n == 0 && t[1..] == ""; }
    }
  }

  lemma RecordJsonSound(r: SpoolRecord)
    ensures WellFormed(RecordJson(r)) && Within(RecordJson(r), MAX_DEPTH)
  {
    hide Decimal, NumberToken;
    DecimalToken(r.attempts);
    DecimalToken(r.nextAttemptMs);
    DecimalToken(r.createdMs);
    assert DistinctKeys(RecordJson(r).members);
  }

  lemma {:induction false} FieldAppend(a: seq<Member>, b: seq<Member>, key: string)
    requires forall m :: m in a ==> m.key != key
    ensures Field(a + b, key) == Field(b, key)
  {
    if a == [] {
      assert a + b == b;
    } else {
      assert (a + b)[1..] == a[1..] + b;
      FieldAppend(a[1..], b, key);
    }
  }

  lemma {:induction false} FieldAbsent(a: seq<Member>, key: string)
    requires forall m :: m in a ==> m.key != key
    ensures Field(a, key) == Some(Option.None)
  {
    if a != [] { FieldAbsent(a[1..], key); }
  }

  lemma FieldAt(members: seq<Member>, i: nat)
    requires i < |members| && DistinctKeys(members)
    ensures Field(members, members[i].key) == Some(Some(members[i].value))
  {
    var before, from, after := members[..i], members[i..], members[i + 1..];
    assert members == before + from;
    FieldAppend(before, from, members[i].key);
    assert from[1..] == after;
    FieldAbsent(after, members[i].key);
  }

  lemma FromJsonInverts(r: SpoolRecord)
    requires InWidth(r)
    ensures FromJson(RecordJson(r)) == Some(r)
  {
    hide Field, Decimal, ReadUnsigned, NumberToken;
    var m := RecordJson(r).members;
    RecordJsonSound(r);
    DecimalToken(r.attempts);
    DecimalToken(r.nextAttemptMs);
    DecimalToken(r.createdMs);
    FieldAt(m, 0);
    FieldAt(m, 1);
    FieldAt(m, 2);
    FieldAt(m, 3);
    FieldAt(m, |m| - 1);
    if r.lastError.Some? {
      FieldAt(m, 4);
    } else {
      FieldAbsent(m, "last_error");
    }
  }

  lemma LineReads(r: SpoolRecord)
    requires InWidth(r)
    ensures ReadLine(Line(r)) == [r]
  {
    hide FromJson, RecordJson, Parse;
    RecordJsonSound(r);
    ParsePrint(RecordJson(r));
    FromJsonInverts(r);
  }

  lemma CutLineReadsNothing(r: SpoolRecord, p: string)
    requires p < Line(r)
    ensures ReadLine(p) == []
  {
    hide FromJson, Parse, Print;
    RecordJsonSound(r);
    CutObjectDoesNotParse(RecordJson(r), p);
  }

  // ----- a line holds no line break --------------------------------------------------------------------

  predicate OneLine(s: string) {
    '\n' !in s && '\r' !in s
  }

  lemma EscapeCharOneLine(c: char)
    ensures OneLine(EscapeChar(c))
  {
    if |EscapeChar(c)| == 6 {
      var h, l := HexDigit(c as int / 16), HexDigit(c as int % 16);
      HexDigitReads(c as int / 16);
      HexDigitReads(c as int % 16);
      hide HexDigit;
    }
  }

  lemma {:induction false} EscapeOneLine(s: string)
    ensures OneLine(Escape(s))
  {
    hide EscapeChar;
    if s != "" { EscapeCharOneLine(s[0]); EscapeOneLine(s[1..]); }
  }

  lemma {:induction false} PrintOneLine(v: Value)
    requires WellFormed(v)
    ensures OneLine(Print(v))
    decreases v, 0
  {
    hide JsonNumber, Escape, PrintMember, DistinctKeys, MoreItems, MoreMembers;
    match v {
      case Str(s) => EscapeOneLine(s);
      case Arr(items) =>
        if items != [] { PrintOneLine(items[0]); MoreItemsOneLine(items[1..]); }
      case Obj(members) =>
        if members != [] { MemberOneLine(members[0]); MoreMembersOneLine(members[1..]); }
      case _ =>
    }
  }

  lemma {:induction false} MoreItemsOneLine(items: seq<Value>)
    requires forall i :: 0 <= i < |items| ==> WellFormed(items[i])
    ensures OneLine(MoreItems(items))
    decreases items, 1
  {
    hide Print, WellFormed;
    if items != [] { PrintOneLine(items[0]); MoreItemsOneLine(items[1..]); }
  }

  lemma {:induction false} MemberOneLine(m: Member)
    requires WellFormed(m.value)
    ensures OneLine(PrintMember(m))
    decreases m, 1
  {
    hide Print, WellFormed, Escape;
    EscapeOneLine(m.key);
    PrintOneLine(m.value);
  }

  lemma {:induction false} MoreMembersOneLine(members: seq<Member>)
    requires forall i :: 0 <= i < |members| ==> WellFormed(members[i].value)
    ensures OneLine(MoreMembers(members))
    decreases members, 1
  {
    hide PrintMember, WellFormed;
    if members != [] { MemberOneLine(members[0]); MoreMembersOneLine(members[1..]); }
  }

  lemma LineIsOneLine(r: SpoolRecord)
    ensures OneLine(Line(r))
  {
    hide Print, RecordJson;
    RecordJsonSound(r);
    PrintOneLine(RecordJson(r));
  }

  lemma {:induction false} NewlineAtOf(a: string, rest: string)
    requires OneLine(a)
    ensures NewlineAt(a + "\n" + rest) == |a|
    ensures NewlineAt(a) == |a|
  {
    var text := a + "\n" + rest;
    assert forall j :: 0 <= j < |a| ==> text[j] == a[j];
    assert text[|a|] == '\n';
  }

  lemma ReadFirst(r: SpoolRecord, rest: string)
    requires InWidth(r)
    ensures ReadRecords(Line(r) + "\n" + rest) == [r] + ReadRecords(rest)
  {
    hide Line, ReadLine;
    var text := Line(r) + "\n" + rest;
    LineIsOneLine(r);
    LineReads(r);
    NewlineAtOf(Line(r), rest);
    assert text[..|Line(r)|] == Line(r) && text[|Line(r)| + 1..] == rest;
    assert StripReturn(Line(r)) == Line(r);
  }

  /** The size the append path reads off the file is the total the bound is computed from. */
  lemma {:induction false} FileBytes(records: seq<SpoolRecord>)
    ensures ByteLen(FileText(records)) == TotalBytes(records)
  {
    hide Line, Utf8;
    if records != [] {
      var line, rest := Line(records[0]), FileText(records[1..]);
      FileBytes(records[1..]);
      ByteLenAppend(line + "\n", rest);
      ByteLenAppend(line, "\n");
      NewlineBytes();
      hide ByteLen;
    }
  }

  lemma NewlineBytes()
    ensures ByteLen("\n") == 1
  {
    assert "\n"[1..] == "";
  }

  // ----- what files guarantee ----------------------------------------------------------------------------

  ghost predicate AllInWidth(records: seq<SpoolRecord>) {
    forall r :: r in records ==> InWidth(r)
  }

  /** Reading back what was written gives the same records, in the same order. */
  lemma {:induction false} FilesRoundTrip(records: seq<SpoolRecord>)
    requires AllInWidth(records)
    ensures ReadRecords(FileText(records)) == records
  {
    hide Line, ReadLine, InWidth;
    if records != [] {
      FilesRoundTrip(records[1..]);
      ReadFirst(records[0], FileText(records[1..]));
      hide ReadRecords;
      assert [records[0]] + records[1..] == records;
    }
  }

  /** Appending a line to a file that ends in a newline adds exactly that record, whatever the file
      held before, readable or not. */
  lemma {:induction false} AppendAddsOne(text: string, r: SpoolRecord)
    requires InWidth(r) && (text == "" || text[|text| - 1] == '\n')
    ensures ReadRecords(text + Line(r) + "\n") == ReadRecords(text) + [r]
    decreases |text|
  {
    hide Line, ReadLine, InWidth, NewlineAt, StripReturn;
    var longer := text + Line(r) + "\n";
    if text == "" {
      assert longer == Line(r) + "\n" + "";
      ReadFirst(r, "");
    } else {
      var i := NewlineAt(text);
      NewlineAtPrefix(text, Line(r) + "\n");
      assert longer == text + (Line(r) + "\n");
      assert longer[..i] == text[..i] && longer[i + 1..] == text[i + 1..] + Line(r) + "\n";
      AppendAddsOne(text[i + 1..], r);
    }
  }

  lemma NewlineAtPrefix(text: string, more: string)
    requires text != "" && text[|text| - 1] == '\n'
    ensures NewlineAt(text) < |text| && NewlineAt(text + more) == NewlineAt(text)
  {
    var i, j := NewlineAt(text), NewlineAt(text + more);
    assert i < |text|;
    assert (text + more)[i] == text[i];
    assert j < |text| ==> (text + more)[j] == text[j];
  }

  /** How many whole records are left of a file that was cut: a record counts once its text is there,
      with or without the newline. */
  function Survivors(records: seq<SpoolRecord>, cut: nat): (n: nat)
    ensures n <= |records|
  {
    if records == [] || cut < |Line(records[0])| then 0
    else if cut <= |Line(records[0])| + 1 then 1
    else 1 + Survivors(records[1..], cut - |Line(records[0])| - 1)
  }

  /** Cutting a written file anywhere leaves exactly the records whose text is still whole. */
  lemma {:induction false} CutFileReadsAsPrefix(records: seq<SpoolRecord>, cut: nat)
    requires AllInWidth(records) && cut <= |FileText(records)|
    ensures ReadRecords(FileText(records)[..cut]) == records[..Survivors(records, cut)]
  {
    hide Line, ReadRecords, InWidth;
    if records != [] {
      var r, rest := records[0], FileText(records[1..]);
      var text := FileText(records);
      if cut <= |Line(r)| {
        assert text[..cut] == Line(r)[..cut];
        CutInFirst(r, cut);
        assert records[..1] == [r];
      } else {
        var k := cut - |Line(r)| - 1;
        assert text[..cut] == Line(r) + "\n" + rest[..k];
        ReadFirst(r, rest[..k]);
        CutFileReadsAsPrefix(records[1..], k);
        if k == 0 {
          NothingSurvives(records[1..]);
        }
        var n := Survivors(records[1..], k);
        assert [r] + records[1..][..n] == records[..n + 1];
      }
    } else {
      ReadEmpty();
    }
  }

  lemma ReadEmpty()
    ensures FileText([]) == "" && ReadRecords("") == []
  {
  }

  lemma CutInFirst(r: SpoolRecord, cut: nat)
    requires InWidth(r) && cut <= |Line(r)|
    ensures ReadRecords(Line(r)[..cut]) == if cut < |Line(r)| then [] else [r]
  {
    hide Line, ReadLine, InWidth;
    LineIsOneLine(r);
    LineReads(r);
    LineNotEmpty(r);
    CutIsOneLine(Line(r), cut);
    if cut < |Line(r)| {
      CutLineReadsNothing(r, Line(r)[..cut]);
    } else {
      assert Line(r)[..cut] == Line(r);
    }
  }

  lemma CutIsOneLine(line: string, cut: nat)
    requires OneLine(line) && cut <= |line|
    ensures NewlineAt(line[..cut]) == cut
  {
  }

  lemma NothingSurvives(records: seq<SpoolRecord>)
    ensures Survivors(records, 0) == 0
  {
    hide Line;
    if records != [] { LineNotEmpty(records[0]); }
  }

  lemma LineNotEmpty(r: SpoolRecord)
    ensures Line(r) != ""
  {
    hide PrintMembers;
  }
}
