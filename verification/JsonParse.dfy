/** Reading JSON text, as serde_json does, and the two facts about it that files depend on: what was
    printed reads back, and what was cut short does not read at all. */
module JsonParse {
  import opened Wrappers
  import opened Json

  /** serde_json's recursion limit. */
  const MAX_DEPTH := 128

  predicate Space(c: char) {
    c in " \t\n\r"
  }

  function SkipSpace(s: string): (r: string)
    ensures |r| <= |s|
    ensures s != "" && !Space(s[0]) ==> r == s
  {
    if s != "" && Space(s[0]) then SkipSpace(s[1..]) else s
  }

  // ----- strings ----------------------------------------------------------------------------------

  function HexValue(c: char): Option<nat> {
    if '0' <= c <= '9' then Some(c as int - '0' as int)
    else if 'a' <= c <= 'f' then Some(c as int - 'a' as int + 10)
    else if 'A' <= c <= 'F' then Some(c as int - 'A' as int + 10)
    else None
  }

  function Hex4(s: string): (r: Option<nat>)
    ensures r.Some? ==> |s| >= 4 && r.value < 0x10000
  {
    if |s| < 4 then None
    else
      var a, b, c, d := HexValue(s[0]), HexValue(s[1]), HexValue(s[2]), HexValue(s[3]);
      if a.Some? && b.Some? && c.Some? && d.Some?
      then Some(((a.value * 16 + b.value) * 16 + c.value) * 16 + d.value)
      else None
  }

  /** What follows a backslash; a surrogate escape must be half of a pair. */
  function ParseEscape(s: string): (r: Option<(char, string)>)
    ensures r.Some? ==> |r.value.1| < |s|
  {
    if s == "" then None
    else if s[0] in "\"\\/" then Some((s[0], s[1..]))
    else if s[0] == 'n' then Some(('\n', s[1..]))
    else if s[0] == 'r' then Some(('\r', s[1..]))
    else if s[0] == 't' then Some(('\t', s[1..]))
    else if s[0] == 'b' then Some((8 as char, s[1..]))
    else if s[0] == 'f' then Some((12 as char, s[1..]))
    else if s[0] == 'u' then ParseUnicode(s[1..])
    else None
  }

  function ParseUnicode(s: string): (r: Option<(char, string)>)
    ensures r.Some? ==> |r.value.1| < |s|
  {
    var high := Hex4(s);
    if high.None? || 0xDC00 <= high.value < 0xE000 then None
    else if high.value < 0xD800 || 0xE000 <= high.value then Some((high.value as char, s[4..]))
    else if !("\\u" <= s[4..]) then None
    else
      var low := Hex4(s[6..]);
      if low.None? || !(0xDC00 <= low.value < 0xE000) then None
      else Some(((0x10000 + (high.value - 0xD800) * 0x400 + (low.value - 0xDC00)) as char, s[10..]))
  }

  /** The rest of a string after its opening quote. */
  function ParseString(s: string): (r: Option<(string, string)>)
    ensures r.Some? ==> |r.value.1| < |s|
  {
    if s == "" then None
    else if s[0] == '\"' then Some(("", s[1..]))
    else
      var head := if s[0] == '\\' then ParseEscape(s[1..])
                  else if s[0] as int < 32 then None else Some((s[0], s[1..]));
      if head.None? then None
      else
        var tail := ParseString(head.value.1);
        if tail.None? then None else Some(([head.value.0] + tail.value.0, tail.value.1))
  }

  // ----- values -----------------------------------------------------------------------------------

  function NumberLength(s: string): (n: nat)
    ensures n <= |s|
  {
    if s != "" && NumberChar(s[0]) then 1 + NumberLength(s[1..]) else 0
  }

  function ParseNumber(s: string): (r: Option<(Value, string)>)
    ensures r.Some? ==> |r.value.1| < |s|
  {
    var n := NumberLength(s);
    if n > 0 && NumberToken(s[..n]) then Some((Num(s[..n]), s[n..])) else None
  }

  function ParseWord(s: string, word: string, v: Value): (r: Option<(Value, string)>)
    requires word != ""
    ensures r.Some? ==> |r.value.1| < |s|
  {
    if word <= s then Some((v, s[|word|..])) else None
  }

  function ParseValue(text: string, depth: nat): (r: Option<(Value, string)>)
    ensures r.Some? ==> |r.value.1| < |text|
    decreases |text|, 2
  {
    var s := SkipSpace(text);
    if s == "" then None
    else if s[0] == 'n' then ParseWord(s, "null", Null)
    else if s[0] == 't' then ParseWord(s, "true", Bool(true))
    else if s[0] == 'f' then ParseWord(s, "false", Bool(false))
    else if s[0] == '\"' then
      var r := ParseString(s[1..]);
      if r.None? then None else Some((Str(r.value.0), r.value.1))
    else if s[0] == '[' then
      if depth <= 1 then None
      else
        var inner := SkipSpace(s[1..]);
        if inner != "" && inner[0] == ']' then Some((Arr([]), inner[1..]))
        else
          var r := ParseItems(inner, depth - 1);
          if r.None? then None else Some((Arr(r.value.0), r.value.1))
    else if s[0] == '{' then
      if depth <= 1 then None
      else
        var inner := SkipSpace(s[1..]);
        if inner != "" && inner[0] == '}' then Some((Obj([]), inner[1..]))
        else
          var r := ParseMembers(inner, depth - 1);
          if r.None? then None else Some((Obj(r.value.0), r.value.1))
    else ParseNumber(s)
  }

  /** One or more items and the closing bracket. */
  function ParseItems(s: string, depth: nat): (r: Option<(seq<Value>, string)>)
    ensures r.Some? ==> |r.value.1| < |s|
    decreases |s|, 3
  {
    var head := ParseValue(s, depth);
    if head.None? then None
    else
      var after := SkipSpace(head.value.1);
      if after != "" && after[0] == ']' then Some(([head.value.0], after[1..]))
      else if after != "" && after[0] == ',' then
        var tail := ParseItems(after[1..], depth);
        if tail.None? then None else Some(([head.value.0] + tail.value.0, tail.value.1))
      else None
  }

  function ParseMember(text: string, depth: nat): (r: Option<(Member, string)>)
    ensures r.Some? ==> |r.value.1| < |text|
    decreases |text|, 3
  {
    var s := SkipSpace(text);
    if s == "" || s[0] != '\"' then None
    else
      var key := ParseString(s[1..]);
      if key.None? then None
      else
        var colon := SkipSpace(key.value.1);
        if colon == "" || colon[0] != ':' then None
        else
          var v := ParseValue(colon[1..], depth);
          if v.None? then None else Some((Member(key.value.0, v.value.0), v.value.1))
  }

  /** One or more members and the closing brace. */
  function ParseMembers(s: string, depth: nat): (r: Option<(seq<Member>, string)>)
    ensures r.Some? ==> |r.value.1| < |s|
    decreases |s|, 4
  {
    var head := ParseMember(s, depth);
    if head.None? then None
    else
      var after := SkipSpace(head.value.1);
      if after != "" && after[0] == '}' then Some(([head.value.0], after[1..]))
      else if after != "" && after[0] == ',' then
        var tail := ParseMembers(after[1..], depth);
        if tail.None? then None else Some(([head.value.0] + tail.value.0, tail.value.1))
      else None
  }

  /** A whole text: one value and nothing but white space after it. */
  function Parse(text: string): Option<Value> {
    var r := ParseValue(text, MAX_DEPTH);
    if r.Some? && SkipSpace(r.value.1) == "" then Some(r.value.0) else None
  }

  // ----- what was printed reads back ------------------------------------------------------------------

  /** Nested less deeply than the limit. */
  predicate Within(v: Value, depth: nat)
    decreases v
  {
    match v
    case Arr(items) => depth > 1 && forall i :: 0 <= i < |items| ==> Within(items[i], depth - 1)
    case Obj(members) => depth > 1 && forall i :: 0 <= i < |members| ==> Within(members[i].value, depth - 1)
    case _ => true
  }

  lemma EscapeCharReads(c: char, rest: string)
    ensures var text := EscapeChar(c) + rest;
            && (c !in "\"\\" && c as int >= 32 ==> text == [c] + rest)
            && (c in "\"\\" || c as int < 32 ==>
                  text[0] == '\\' && ParseEscape(text[1..]) == Some((c, rest)))
  {
    if c in "\"\\" || c as int < 32 {
      var text := EscapeChar(c) + rest;
      if |EscapeChar(c)| == 2 {
        assert text[1..] == [EscapeChar(c)[1]] + rest;
        assert text[1..][1..] == rest;
      } else {
        UnicodeReads(c, rest);
      }
    }
  }

  lemma UnicodeReads(c: char, rest: string)
    requires c as int < 32 && |EscapeChar(c)| == 6
    ensures (EscapeChar(c) + rest)[0] == '\\'
    ensures ParseEscape((EscapeChar(c) + rest)[1..]) == Some((c, rest))
  {
    var n := c as int;
    var digits := "00" + [HexDigit(n / 16), HexDigit(n % 16)];
    var text := EscapeChar(c) + rest;
    assert text[1..][0] == 'u' && text[1..][1..] == digits + rest;
    HexDigitReads(n / 16);
    HexDigitReads(n % 16);
    assert Hex4(digits + rest) == Some(n);
    assert (digits + rest)[4..] == rest;
  }

  lemma HexDigitReads(n: nat)
    requires n < 16
    ensures HexValue(HexDigit(n)) == Some(n)
  {
  }

  lemma {:induction false} EscapeReads(s: string, rest: string)
    ensures ParseString(Escape(s) + "\"" + rest) == Some((s, rest))
  {
    if s == "" {
      assert Escape(s) + "\"" + rest == "\"" + rest;
    } else {
      var tail := Escape(s[1..]) + "\"" + rest;
      EscapeUnfold(s, rest);
      EscapeCharReads(s[0], tail);
      EscapeReads(s[1..], rest);
      hide EscapeChar, ParseEscape;
      assert [s[0]] + s[1..] == s;
    }
  }

  lemma {:induction false} NumberLengthOf(t: string, rest: string)
    requires (forall i :: 0 <= i < |t| ==> NumberChar(t[i])) && EndsToken(rest)
    ensures NumberLength(t + rest) == |t|
  {
    if t == "" {
      assert t + rest == rest;
    } else {
      assert (t + rest)[1..] == t[1..] + rest;
      NumberLengthOf(t[1..], rest);
    }
  }

  lemma NumberReads(t: string, rest: string)
    requires NumberToken(t) && EndsToken(rest)
    ensures ParseNumber(t + rest) == Some((Num(t), rest))
    ensures t[0] !in "ntf\"[{" && !Space(t[0])
  {
    NumberLengthOf(t, rest);
    assert (t + rest)[..|t|] == t && (t + rest)[|t|..] == rest;
  }

  lemma QuoteReads(s: string, rest: string)
    ensures Quote(s) + rest == "\"" + (Escape(s) + "\"" + rest)
    ensures ParseString((Quote(s) + rest)[1..]) == Some((s, rest))
  {
    hide Escape, ParseString;
    EscapeReads(s, rest);
    assert (Quote(s) + rest)[1..] == Escape(s) + "\"" + rest;
  }

  lemma ScalarReads(v: Value, rest: string, depth: nat)
    requires WellFormed(v) && !v.Arr? && !v.Obj? && EndsToken(rest)
    ensures ParseValue(Print(v) + rest, depth) == Some((v, rest))
  {
    hide Quote, ParseString, ParseNumber, NumberToken, ParseItems, ParseMembers, EndsToken, NumberChar;
    var text := Print(v) + rest;
    match v {
      case Num(t) => NumberReads(t, rest);
      case Str(s) => QuoteReads(s, rest); QuoteFirst(s);
      case Null => assert text[4..] == rest;
      case Bool(b) => assert text[|Print(v)|..] == rest;
    }
  }

  lemma QuoteFirst(s: string)
    ensures Quote(s) != "" && Quote(s)[0] == '\"'
  {
  }

  lemma BracketReads(inner: string, items: seq<Value>, rest: string, depth: nat)
    requires depth > 1 && inner != "" && !Space(inner[0])
    requires if items == [] then inner == "]" + rest
             else inner[0] != ']' && ParseItems(inner, depth - 1) == Some((items, rest))
    ensures ParseValue("[" + inner, depth) == Some((Arr(items), rest))
  {
    hide ParseItems;
    assert ("[" + inner)[1..] == inner;
    if items == [] { assert inner[1..] == rest; }
  }

  lemma BraceReads(inner: string, members: seq<Member>, rest: string, depth: nat)
    requires depth > 1 && inner != "" && !Space(inner[0])
    requires if members == [] then inner == "}" + rest
             else inner[0] != '}' && ParseMembers(inner, depth - 1) == Some((members, rest))
    ensures ParseValue("{" + inner, depth) == Some((Obj(members), rest))
  {
    hide ParseMembers;
    assert ("{" + inner)[1..] == inner;
    if members == [] { assert inner[1..] == rest; }
  }

  lemma {:induction false} PrintReads(v: Value, rest: string, depth: nat)
    requires WellFormed(v) && Within(v, depth) && EndsToken(rest)
    ensures ParseValue(Print(v) + rest, depth) == Some((v, rest))
    decreases v, 0
  {
    hide ParseValue, ParseItems, ParseMembers, PrintItems, PrintMembers, NumberToken, DistinctKeys, EndsToken;
    match v {
      case Arr(items) =>
        var inner := PrintItems(items) + "]" + rest;
        if items == [] { PrintNothing(); } else { FirstNotSpace(items, rest); ItemsRead(items, rest, depth - 1); }
        BracketReads(inner, items, rest, depth);
        assert Print(v) + rest == "[" + inner;
      case Obj(members) =>
        var inner := PrintMembers(members) + "}" + rest;
        if members == [] { PrintNothing(); } else { FirstIsQuote(members); MembersRead(members, rest, depth - 1); }
        BraceReads(inner, members, rest, depth);
        assert Print(v) + rest == "{" + inner;
      case _ => ScalarReads(v, rest, depth);
    }
  }

  lemma PrintNothing()
    ensures PrintItems([]) == "" && PrintMembers([]) == ""
  {
  }

  lemma FirstNotSpace(items: seq<Value>, rest: string)
    requires items != [] && forall i :: 0 <= i < |items| ==> WellFormed(items[i])
    ensures PrintItems(items) != "" && !Space(PrintItems(items)[0]) && PrintItems(items)[0] != ']'
  {
    hide Print, WellFormed;
    PrintFirstIsPlain(items[0]);
  }

  lemma ItemsTail(items: seq<Value>, rest: string)
    requires |items| > 0
    ensures |items| > 1 ==> (MoreItems(items[1..]) + "]" + rest)[1..] == PrintItems(items[1..]) + "]" + rest
  {
    hide Print;
  }

  lemma MembersTail(members: seq<Member>, rest: string)
    requires |members| > 0
    ensures |members| > 1 ==> (MoreMembers(members[1..]) + "}" + rest)[1..] == PrintMembers(members[1..]) + "}" + rest
  {
    hide PrintMember;
  }

  lemma FirstIsQuote(members: seq<Member>)
    requires members != []
    ensures PrintMembers(members) != "" && PrintMembers(members)[0] == '\"'
  {
    hide PrintMember;
    MemberFirst(members[0]);
  }

  lemma {:induction false} ItemsRead(items: seq<Value>, rest: string, depth: nat)
    requires items != []
    requires forall i :: 0 <= i < |items| ==> WellFormed(items[i]) && Within(items[i], depth)
    ensures ParseItems(PrintItems(items) + "]" + rest, depth) == Some((items, rest))
    decreases items, 1
  {
    hide Print, ParseValue, WellFormed, Within;
    var after := MoreItems(items[1..]) + "]" + rest;
    ItemsTail(items, rest);
    assert PrintItems(items) + "]" + rest == Print(items[0]) + after;
    MoreItemsUnfold(items[1..], rest);
    hide MoreItems, PrintItems;
    assert after[0] == (if |items| == 1 then ']' else ',');
    SeparatorEndsToken(after);
    PrintReads(items[0], after, depth);
    assert SkipSpace(after) == after;
    if |items| == 1 {
      assert after[1..] == rest && [items[0]] == items;
    } else {
      ItemsRead(items[1..], rest, depth);
      assert [items[0]] + items[1..] == items;
    }
  }

  lemma {:induction false} MemberReads(m: Member, rest: string, depth: nat)
    requires WellFormed(m.value) && Within(m.value, depth) && EndsToken(rest)
    ensures ParseMember(PrintMember(m) + rest, depth) == Some((m, rest))
    decreases m, 1
  {
    hide Quote, Print, ParseValue, ParseString, WellFormed, Within;
    var after := ":" + Print(m.value) + rest;
    assert PrintMember(m) + rest == Quote(m.key) + after;
    QuoteReads(m.key, after);
    PrintReads(m.value, rest, depth);
    assert after[1..] == Print(m.value) + rest;
  }

  lemma {:induction false} MembersRead(members: seq<Member>, rest: string, depth: nat)
    requires members != []
    requires forall i :: 0 <= i < |members| ==> WellFormed(members[i].value) && Within(members[i].value, depth)
    ensures ParseMembers(PrintMembers(members) + "}" + rest, depth) == Some((members, rest))
    decreases members, 2
  {
    hide PrintMember, ParseMember, WellFormed, Within;
    var after := MoreMembers(members[1..]) + "}" + rest;
    MembersTail(members, rest);
    assert PrintMembers(members) + "}" + rest == PrintMember(members[0]) + after;
    MoreMembersUnfold(members[1..], rest);
    hide MoreMembers, PrintMembers;
    assert after[0] == (if |members| == 1 then '}' else ',');
    SeparatorEndsToken(after);
    MemberReads(members[0], after, depth);
    assert SkipSpace(after) == after;
    if |members| == 1 {
      assert after[1..] == rest && [members[0]] == members;
    } else {
      MembersRead(members[1..], rest, depth);
      assert [members[0]] + members[1..] == members;
    }
  }

  /** Reading inverts printing. */
  lemma ParsePrint(v: Value)
    requires WellFormed(v) && Within(v, MAX_DEPTH)
    ensures Parse(Print(v)) == Some(v)
  {
    PrintReads(v, "", MAX_DEPTH);
    assert Print(v) + "" == Print(v);
  }

  // ----- what was cut short does not read ---------------------------------------------------------------

  lemma Cut(p: string, head: string, tail: string)
    requires p < head + tail
    ensures p < head || (|p| >= |head| && p == head + p[|head|..] && p[|head|..] < tail)
  {
    var text := head + tail;
    assert forall i :: 0 <= i < |p| ==> p[i] == text[i];
    if |p| < |head| {
      assert p == head[..|p|];
    } else {
      assert p[|head|..] == tail[..|p| - |head|];
    }
  }

  lemma EscapeCharCut(c: char, p: string)
    requires p < EscapeChar(c)
    ensures ParseString(p).None?
  {
    var e := EscapeChar(c);
    if p != "" {
      assert p[0] == e[0] == '\\';
      if |p| > 1 {
        assert |e| == 6 && p[1] == e[1] == 'u';
        assert p[1..][1..] == p[2..] && |p[2..]| < 4;
      }
    }
  }

  lemma {:induction false} EscapeCut(s: string, p: string)
    requires p < Escape(s) + "\""
    ensures ParseString(p).None?
  {
    if s != "" {
      EscapeUnfold(s, "");
      var tail := Escape(s[1..]) + "\"";
      assert Escape(s) + "\"" == EscapeChar(s[0]) + tail;
      Cut(p, EscapeChar(s[0]), tail);
      if p < EscapeChar(s[0]) {
        EscapeCharCut(s[0], p);
      } else {
        var q := p[|EscapeChar(s[0])|..];
        EscapeCut(s[1..], q);
        EscapeCharReads(s[0], q);
        hide EscapeChar, ParseEscape;
      }
    }
  }

  lemma QuoteCut(s: string, p: string)
    requires p < Quote(s) && p != ""
    ensures p[0] == '\"' && ParseString(p[1..]).None?
  {
    hide Escape, ParseString;
    var body := Escape(s) + "\"";
    assert Quote(s) == "\"" + body;
    Cut(p, "\"", body);
    EscapeCut(s, p[1..]);
  }

  lemma {:induction false} PrefixNumberChars(p: string)
    requires forall i :: 0 <= i < |p| ==> NumberChar(p[i])
    ensures NumberLength(p) == |p|
  {
    if p != "" { PrefixNumberChars(p[1..]); }
  }

  /** A cut value fails to read; a cut number may read as a shorter one, but then nothing is left. */
  ghost predicate Unread<T>(r: Option<(T, string)>) {
    r.None? || r.value.1 == ""
  }

  lemma {:induction false} PrintCut(v: Value, p: string, depth: nat)
    requires WellFormed(v) && Within(v, depth) && p < Print(v)
    ensures Unread(ParseValue(p, depth))
    ensures !v.Num? ==> ParseValue(p, depth).None?
    decreases v, 0
  {
    hide Quote, ParseString, NumberToken, ParseItems, ParseMembers, PrintItems, PrintMembers;
    PrintFirst(v);
    if p != "" {
      assert p[0] == Print(v)[0];
      match v {
        case Num(t) => NumberCut(t, p);
        case Str(s) => QuoteCut(s, p);
        case Arr(items) =>
          Cut(p, "[", PrintItems(items) + "]");
          var q := p[1..];
          if items == [] { PrintNothing(); } else { FirstNotSpace(items, ""); ItemsCut(items, q, depth - 1); }
          assert q != "" ==> q[0] == (PrintItems(items) + "]")[0];
          ReadNothing(depth - 1);
        case Obj(members) =>
          Cut(p, "{", PrintMembers(members) + "}");
          var q := p[1..];
          if members == [] { PrintNothing(); } else { FirstIsQuote(members); MembersCut(members, q, depth - 1); }
          assert q != "" ==> q[0] == (PrintMembers(members) + "}")[0];
          ReadNothing(depth - 1);
        case _ =>
      }
    }
  }

  lemma ReadNothing(depth: nat)
    ensures ParseItems("", depth).None? && ParseMembers("", depth).None?
    ensures ParseValue("", depth).None? && ParseMember("", depth).None?
  {
  }

  lemma NumberCut(t: string, p: string)
    requires NumberToken(t) && p < t && p != ""
    ensures Unread(ParseNumber(p)) && p[0] !in "ntf\"[{" && !Space(p[0])
  {
    PrefixNumberChars(p);
  }

  lemma {:induction false} ItemsCut(items: seq<Value>, p: string, depth: nat)
    requires items != []
    requires forall i :: 0 <= i < |items| ==> WellFormed(items[i]) && Within(items[i], depth)
    requires p < PrintItems(items) + "]"
    ensures ParseItems(p, depth).None?
    decreases items, 1
  {
    hide Print, ParseValue, WellFormed, Within;
    var after := MoreItems(items[1..]) + "]";
    assert PrintItems(items) + "]" == Print(items[0]) + after;
    Cut(p, Print(items[0]), after);
    if p < Print(items[0]) {
      PrintCut(items[0], p, depth);
    } else {
      var q := p[|Print(items[0])|..];
      MoreItemsUnfold(items[1..], "");
      assert after == MoreItems(items[1..]) + "]" + "";
      assert q != "" ==> q[0] == after[0];
      PrintReads(items[0], q, depth);
      if q != "" && |items| > 1 {
        SplitSeparator(q, after);
        assert after[1..] == PrintItems(items[1..]) + "]";
        ItemsCut(items[1..], q[1..], depth);
      }
    }
  }

  lemma SplitSeparator(q: string, after: string)
    requires q < after && q != ""
    ensures q[0] == after[0] && q[1..] < after[1..]
  {
    assert q[1..] == after[1..][..|q| - 1];
  }

  lemma {:induction false} MemberCut(m: Member, p: string, depth: nat)
    requires WellFormed(m.value) && Within(m.value, depth) && p < PrintMember(m)
    ensures Unread(ParseMember(p, depth))
    decreases m, 1
  {
    hide Quote, Print, ParseValue, ParseString, WellFormed, Within;
    var after := ":" + Print(m.value);
    assert PrintMember(m) == Quote(m.key) + after;
    Cut(p, Quote(m.key), after);
    if p < Quote(m.key) {
      if p != "" { QuoteCut(m.key, p); }
    } else {
      var q := p[|Quote(m.key)|..];
      QuoteReads(m.key, q);
      if q != "" {
        SplitSeparator(q, after);
        assert after[1..] == Print(m.value);
        PrintCut(m.value, q[1..], depth);
      }
    }
  }

  lemma {:induction false} MembersCut(members: seq<Member>, p: string, depth: nat)
    requires members != []
    requires forall i :: 0 <= i < |members| ==> WellFormed(members[i].value) && Within(members[i].value, depth)
    requires p < PrintMembers(members) + "}"
    ensures ParseMembers(p, depth).None?
    decreases members, 2
  {
    hide PrintMember, ParseMember, WellFormed, Within;
    var after := MoreMembers(members[1..]) + "}";
    assert PrintMembers(members) + "}" == PrintMember(members[0]) + after;
    Cut(p, PrintMember(members[0]), after);
    if p < PrintMember(members[0]) {
      MemberCut(members[0], p, depth);
    } else {
      var q := p[|PrintMember(members[0])|..];
      MoreMembersUnfold(members[1..], "");
      assert after == MoreMembers(members[1..]) + "}" + "";
      assert q != "" ==> q[0] == after[0];
      MemberReads(members[0], q, depth);
      if q != "" && |members| > 1 {
        SplitSeparator(q, after);
        assert after[1..] == PrintMembers(members[1..]) + "}";
        MembersCut(members[1..], q[1..], depth);
      }
    }
  }

  /** No proper prefix of a printed object reads as anything. */
  lemma CutObjectDoesNotParse(v: Value, p: string)
    requires v.Obj? && WellFormed(v) && Within(v, MAX_DEPTH) && p < Print(v)
    ensures Parse(p).None?
  {
    PrintCut(v, p, MAX_DEPTH);
  }
}
