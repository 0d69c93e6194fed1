/** JSON values and their compact rendering, as both serde_json and JSON.stringify print them.

    A number is kept as its printed token, and an object keeps its members in an order. */
module Json {

  datatype Member = Member(key: string, value: Value)

  datatype Value =
    | Null
    | Bool(b: bool)
    | Num(token: string)
    | Str(s: string)
    | Arr(items: seq<Value>)
    | Obj(members: seq<Member>)

  // ----- strings (section 7 of RFC 8259) -----------------------------------------------------

  function HexDigit(n: nat): char
    requires n < 16
  {
    "0123456789abcdef"[n]
  }

  function EscapeChar(c: char): string {
    if c == '\"' then "\\\""
    else if c == '\\' then "\\\\"
    else if c == '\n' then "\\n"
    else if c == '\r' then "\\r"
    else if c == '\t' then "\\t"
    else if c as int == 8 then "\\b"
    else if c as int == 12 then "\\f"
    else if c as int < 32 then "\\u00" + [HexDigit(c as int / 16), HexDigit(c as int % 16)]
    else [c]
  }

  function Escape(s: string): string {
    if s == "" then "" else EscapeChar(s[0]) + Escape(s[1..])
  }

  function Quote(s: string): string {
    "\"" + Escape(s) + "\""
  }

  lemma {:induction false} EscapeBound(s: string)
    ensures |Escape(s)| <= 6 * |s|
  {
    if s != "" { EscapeBound(s[1..]); }
  }

  function Decimal(n: nat): (s: string)
    ensures s != "" && forall i :: 0 <= i < |s| ==> '0' <= s[i] <= '9'
  {
    if n < 10 then [('0' as int + n) as char]
    else Decimal(n / 10) + [('0' as int + n % 10) as char]
  }

  // ----- values -------------------------------------------------------------------------------

  function Print(v: Value): string
    decreases v, 0
  {
    match v
    case Null => "null"
    case Bool(b) => if b then "true" else "false"
    case Num(token) => token
    case Str(s) => Quote(s)
    case Arr(items) => "[" + PrintItems(items) + "]"
    case Obj(members) => "{" + PrintMembers(members) + "}"
  }

  function PrintItems(items: seq<Value>): string
    decreases items, 1
  {
    if items == [] then "" else Print(items[0]) + MoreItems(items[1..])
  }

  function MoreItems(items: seq<Value>): string
    decreases items, 0
  {
    if items == [] then "" else "," + Print(items[0]) + MoreItems(items[1..])
  }

  function PrintMember(m: Member): string
    decreases m, 1
  {
    Quote(m.key) + ":" + Print(m.value)
  }

  function PrintMembers(members: seq<Member>): string
    decreases members, 1
  {
    if members == [] then "" else PrintMember(members[0]) + MoreMembers(members[1..])
  }

  function MoreMembers(members: seq<Member>): string
    decreases members, 0
  {
    if members == [] then "" else "," + PrintMember(members[0]) + MoreMembers(members[1..])
  }

  // ----- well-formed values -------------------------------------------------------------------

  predicate NumberChar(c: char) {
    '0' <= c <= '9' || c in "+-.eE"
  }

  predicate Digit(c: char) {
    '0' <= c <= '9'
  }

  function DropDigits(t: string): (r: string)
    ensures |r| <= |t|
  {
    if t != "" && Digit(t[0]) then DropDigits(t[1..]) else t
  }

  predicate ExponentPart(t: string) {
    t == "" ||
    (t[0] in "eE" &&
     var u := if |t| > 1 && t[1] in "+-" then t[2..] else t[1..];
     u != "" && DropDigits(u) == "")
  }

  /** The number grammar of section 6 of RFC 8259. */
  predicate JsonNumber(t: string) {
    var a := if t != "" && t[0] == '-' then t[1..] else t;
    && a != "" && Digit(a[0])
    && var b := if a[0] == '0' then a[1..] else DropDigits(a);
       if b != "" && b[0] == '.' then |b| > 1 && Digit(b[1]) && ExponentPart(DropDigits(b[1..]))
       else ExponentPart(b)
  }

  predicate NumberToken(t: string) {
    && t != "" && (Digit(t[0]) || t[0] == '-')
    && (forall i :: 0 <= i < |t| ==> NumberChar(t[i]))
    && JsonNumber(t)
  }

  predicate DistinctKeys(members: seq<Member>) {
    forall i, j :: 0 <= i < j < |members| ==> members[i].key != members[j].key
  }

  /** Number tokens are numbers and no object names a member twice: what a parsed JSON text, and a
      JavaScript object, always satisfy. */
  predicate WellFormed(v: Value)
    decreases v
  {
    match v
    case Num(token) => NumberToken(token)
    case Arr(items) => forall i :: 0 <= i < |items| ==> WellFormed(items[i])
    case Obj(members) =>
      && DistinctKeys(members)
      && forall i :: 0 <= i < |members| ==> WellFormed(members[i].value)
    case _ => true
  }

  /** What may follow a value in a larger text: never a character that would extend a number. */
  predicate EndsToken(rest: string) {
    rest == "" || !NumberChar(rest[0])
  }

  // ----- the rendering is a prefix code -------------------------------------------------------

  lemma EscapeCharPrefixFree(c: char, d: char, s: string, t: string)
    requires EscapeChar(c) + s == EscapeChar(d) + t
    ensures c == d && s == t
  {
    var x, y := EscapeChar(c), EscapeChar(d);
    var w := x + s;
    assert w[0] == x[0] == y[0];
    assert |x| > 1 ==> w[1] == x[1];
    assert |y| > 1 ==> w[1] == y[1];
    assert |x| == |y|;
    assert x == w[..|x|] == y;
    assert s == w[|x|..] == t;
    if |x| == 6 {
      assert x[4] == y[4] && x[5] == y[5];
    }
  }

  lemma EscapeUnfold(a: string, rest: string)
    requires a != ""
    ensures Escape(a) + "\"" + rest == EscapeChar(a[0]) + (Escape(a[1..]) + "\"" + rest)
    ensures EscapeChar(a[0]) != "" && EscapeChar(a[0])[0] != '\"'
  {
  }

  lemma {:induction false} EscapePrefixFree(a: string, b: string, s: string, t: string)
    requires Escape(a) + "\"" + s == Escape(b) + "\"" + t
    ensures a == b && s == t
  {
    hide EscapeChar;
    var w := Escape(a) + "\"" + s;
    if a != "" { EscapeUnfold(a, s); }
    if b != "" { EscapeUnfold(b, t); }
    if a != "" && b != "" {
      EscapeCharPrefixFree(a[0], b[0], Escape(a[1..]) + "\"" + s, Escape(b[1..]) + "\"" + t);
      EscapePrefixFree(a[1..], b[1..], s, t);
    } else {
      assert a == "" ==> w[0] == '\"';
      assert b == "" ==> w[0] == '\"';
      assert a == b;
      assert s == w[1..] == t;
    }
  }

  lemma QuotePrefixFree(a: string, b: string, s: string, t: string)
    requires Quote(a) + s == Quote(b) + t
    ensures a == b && s == t
  {
    hide Escape;
    var w := Quote(a) + s;
    assert w[1..] == Escape(a) + "\"" + s;
    assert w[1..] == Escape(b) + "\"" + t;
    EscapePrefixFree(a, b, s, t);
  }

  lemma NumberPrefixFree(a: string, b: string, s: string, t: string)
    requires NumberToken(a) && NumberToken(b)
    requires EndsToken(s) && EndsToken(t)
    requires a + s == b + t
    ensures a == b && s == t
  {
    var w := a + s;
    assert forall i :: 0 <= i < |b| ==> w[i] == b[i];
    assert forall i :: 0 <= i < |a| ==> w[i] == a[i];
    assert |a| < |w| ==> w[|a|] == s[0];
    assert |b| < |w| ==> w[|b|] == t[0];
    assert |a| == |b|;
    assert a == w[..|a|] == b;
    assert s == w[|a|..] == t;
  }

  /** A rendering is never empty, and never starts with a closing bracket or a comma. */
  lemma PrintFirst(v: Value)
    requires WellFormed(v)
    ensures Print(v) != ""
    ensures match Print(v)[0]
            case 'n' => v.Null?
            case 't' => v == Bool(true)
            case 'f' => v == Bool(false)
            case '\"' => v.Str?
            case '[' => v.Arr?
            case '{' => v.Obj?
            case c => v.Num? && NumberChar(c) && c !in " \t\n\r],}"
  {
  }

  lemma PrintFirstIsPlain(v: Value)
    requires WellFormed(v)
    ensures Print(v) != "" && Print(v)[0] !in " \t\n\r],}"
  {
    hide Print, NumberToken;
    PrintFirst(v);
  }

  /** Two renderings that start one text the same way are the same rendering of the same value.
      Everything else about the printer follows from this. */
  lemma {:induction false} PrintPrefixFree(v: Value, w: Value, s: string, t: string)
    requires WellFormed(v) && WellFormed(w)
    requires EndsToken(s) && EndsToken(t)
    requires Print(v) + s == Print(w) + t
    ensures v == w && s == t
    decreases v, 0
  {
    hide Quote, NumberToken, NumberChar, PrintItems, PrintMembers, DistinctKeys, EndsToken;
    var text := Print(v) + s;
    PrintFirst(v);
    PrintFirst(w);
    assert text[0] == Print(v)[0] == Print(w)[0];
    match v {
      case Num(a) => NumberPrefixFree(a, w.token, s, t);
      case Str(a) => QuotePrefixFree(a, w.s, s, t);
      case Arr(items) =>
        assert text[1..] == PrintItems(items) + "]" + s;
        assert text[1..] == PrintItems(w.items) + "]" + t;
        ItemsPrefixFree(items, w.items, s, t);
      case Obj(members) =>
        assert text[1..] == PrintMembers(members) + "}" + s;
        assert text[1..] == PrintMembers(w.members) + "}" + t;
        MembersPrefixFree(members, w.members, s, t);
      case _ =>
        assert Print(v) == Print(w);
        assert s == text[|Print(v)|..] == t;
    }
  }

  lemma SeparatorEndsToken(rest: string)
    requires rest != "" && rest[0] in [',', ']', '}', ':']
    ensures EndsToken(rest)
  {
  }

  lemma MoreItemsUnfold(xs: seq<Value>, rest: string)
    ensures xs == [] ==> MoreItems(xs) + "]" + rest == "]" + rest
    ensures xs != [] ==>
              MoreItems(xs) + "]" + rest == "," + (Print(xs[0]) + (MoreItems(xs[1..]) + "]" + rest))
  {
    hide Print;
  }

  lemma {:induction false} MoreItemsPrefixFree(xs: seq<Value>, ys: seq<Value>, s: string, t: string)
    requires forall x :: x in xs ==> WellFormed(x)
    requires forall y :: y in ys ==> WellFormed(y)
    requires MoreItems(xs) + "]" + s == MoreItems(ys) + "]" + t
    ensures xs == ys && s == t
    decreases xs, 2
  {
    hide *;
    var text := MoreItems(xs) + "]" + s;
    MoreItemsUnfold(xs, s);
    MoreItemsUnfold(ys, t);
    if xs == [] || ys == [] {
      assert text[0] == (if xs == [] then ']' else ',') == (if ys == [] then ']' else ',');
      assert s == text[1..] == t;
    } else {
      var s', t' := MoreItems(xs[1..]) + "]" + s, MoreItems(ys[1..]) + "]" + t;
      assert text[1..] == Print(xs[0]) + s';
      assert text[1..] == Print(ys[0]) + t';
      MoreItemsUnfold(xs[1..], s);
      MoreItemsUnfold(ys[1..], t);
      SeparatorEndsToken(s');
      SeparatorEndsToken(t');
      PrintPrefixFree(xs[0], ys[0], s', t');
      MoreItemsPrefixFree(xs[1..], ys[1..], s, t);
      assert xs == [xs[0]] + xs[1..] && ys == [ys[0]] + ys[1..];
    }
  }

  lemma ItemsFirst(xs: seq<Value>, rest: string)
    requires forall x :: x in xs ==> WellFormed(x)
    ensures var text := PrintItems(xs) + "]" + rest;
            && (xs == [] <==> text[0] == ']')
            && (xs != [] ==> "," + text == MoreItems(xs) + "]" + rest)
  {
    hide Print, WellFormed, NumberChar;
    if xs != [] { PrintFirst(xs[0]); }
  }

  lemma {:induction false} ItemsPrefixFree(xs: seq<Value>, ys: seq<Value>, s: string, t: string)
    requires forall x :: x in xs ==> WellFormed(x)
    requires forall y :: y in ys ==> WellFormed(y)
    requires PrintItems(xs) + "]" + s == PrintItems(ys) + "]" + t
    ensures xs == ys && s == t
    decreases xs, 3
  {
    hide Print, MoreItems, WellFormed, NumberChar;
    var text := PrintItems(xs) + "]" + s;
    ItemsFirst(xs, s);
    ItemsFirst(ys, t);
    if xs == [] || ys == [] {
      assert s == text[1..] == t;
    } else {
      MoreItemsPrefixFree(xs, ys, s, t);
    }
  }

  lemma MemberFirst(m: Member)
    ensures PrintMember(m) != "" && PrintMember(m)[0] == '\"'
  {
    hide Print;
  }

  lemma MoreMembersUnfold(xs: seq<Member>, rest: string)
    ensures xs == [] ==> MoreMembers(xs) + "}" + rest == "}" + rest
    ensures xs != [] ==>
              MoreMembers(xs) + "}" + rest == "," + (PrintMember(xs[0]) + (MoreMembers(xs[1..]) + "}" + rest))
  {
    hide PrintMember;
  }

  lemma {:induction false} MoreMembersPrefixFree(xs: seq<Member>, ys: seq<Member>, s: string, t: string)
    requires forall x :: x in xs ==> WellFormed(x.value)
    requires forall y :: y in ys ==> WellFormed(y.value)
    requires MoreMembers(xs) + "}" + s == MoreMembers(ys) + "}" + t
    ensures xs == ys && s == t
    decreases xs, 2
  {
    hide *;
    var text := MoreMembers(xs) + "}" + s;
    MoreMembersUnfold(xs, s);
    MoreMembersUnfold(ys, t);
    if xs == [] || ys == [] {
      assert text[0] == (if xs == [] then '}' else ',') == (if ys == [] then '}' else ',');
      assert s == text[1..] == t;
    } else {
      var s', t' := MoreMembers(xs[1..]) + "}" + s, MoreMembers(ys[1..]) + "}" + t;
      assert text[1..] == PrintMember(xs[0]) + s';
      assert text[1..] == PrintMember(ys[0]) + t';
      MoreMembersUnfold(xs[1..], s);
      MoreMembersUnfold(ys[1..], t);
      SeparatorEndsToken(s');
      SeparatorEndsToken(t');
      MemberPrefixFree(xs[0], ys[0], s', t');
      MoreMembersPrefixFree(xs[1..], ys[1..], s, t);
      assert xs == [xs[0]] + xs[1..] && ys == [ys[0]] + ys[1..];
    }
  }

  lemma MembersFirst(xs: seq<Member>, rest: string)
    ensures var text := PrintMembers(xs) + "}" + rest;
            && (xs == [] <==> text[0] == '}')
            && (xs != [] ==> "," + text == MoreMembers(xs) + "}" + rest)
  {
    hide PrintMember;
    if xs != [] { MemberFirst(xs[0]); }
  }

  lemma {:induction false} MembersPrefixFree(xs: seq<Member>, ys: seq<Member>, s: string, t: string)
    requires forall x :: x in xs ==> WellFormed(x.value)
    requires forall y :: y in ys ==> WellFormed(y.value)
    requires PrintMembers(xs) + "}" + s == PrintMembers(ys) + "}" + t
    ensures xs == ys && s == t
    decreases xs, 3
  {
    hide PrintMember, MoreMembers, WellFormed, NumberChar;
    var text := PrintMembers(xs) + "}" + s;
    MembersFirst(xs, s);
    MembersFirst(ys, t);
    if xs == [] || ys == [] {
      assert s == text[1..] == t;
    } else {
      MoreMembersPrefixFree(xs, ys, s, t);
    }
  }

  lemma {:induction false} MemberPrefixFree(x: Member, y: Member, s: string, t: string)
    requires WellFormed(x.value) && WellFormed(y.value)
    requires EndsToken(s) && EndsToken(t)
    requires PrintMember(x) + s == PrintMember(y) + t
    ensures x == y && s == t
    decreases x, 1
  {
    hide Quote, NumberToken, Print;
    var s', t' := ":" + Print(x.value) + s, ":" + Print(y.value) + t;
    assert PrintMember(x) + s == Quote(x.key) + s';
    assert PrintMember(y) + t == Quote(y.key) + t';
    QuotePrefixFree(x.key, y.key, s', t');
    assert s'[1..] == Print(x.value) + s;
    assert t'[1..] == Print(y.value) + t;
    PrintPrefixFree(x.value, y.value, s, t);
  }

  /** Distinct well-formed values have distinct renderings. */
  lemma PrintInjective(v: Value, w: Value)
    requires WellFormed(v) && WellFormed(w)
    ensures Print(v) == Print(w) <==> v == w
  {
    if Print(v) == Print(w) {
      assert Print(v) + "" == Print(w) + "";
      PrintPrefixFree(v, w, "", "");
    }
  }
}
