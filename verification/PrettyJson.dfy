/** Pretty-printed JSON, as `serde_json::to_string_pretty` writes the baseline file, and how long it is. */
module PrettyJson {
  import opened Text
  import opened Json

  function Indent(level: nat): (s: string)
    ensures |s| == 2 * level
  {
    if level == 0 then "" else "  " + Indent(level - 1)
  }

  /** The parts of an array or object, each on its own line. */
  function Lines(parts: seq<string>, level: nat): string {
    if parts == [] then ""
    else "\n" + Indent(level) + parts[0] + (if |parts| == 1 then "" else ",") + Lines(parts[1..], level)
  }

  function Framed(open: char, parts: seq<string>, close: char, level: nat): string {
    if parts == [] then [open, close] else [open] + Lines(parts, level + 1) + "\n" + Indent(level) + [close]
  }

  function Pretty(v: Value, level: nat): string
    decreases v
  {
    match v
    case Arr(items) =>
      Framed('[', seq(|items|, i requires 0 <= i < |items| => Pretty(items[i], level + 1)), ']', level)
    case Obj(members) =>
      Framed('{', seq(|members|, i requires 0 <= i < |members| =>
                                   Quote(members[i].key) + ": " + Pretty(members[i].value, level + 1)), '}', level)
    case _ => Print(v)
  }

  function PrettyMember(m: Member, level: nat): string {
    Quote(m.key) + ": " + Pretty(m.value, level)
  }

  function PrettyMembers(members: seq<Member>, level: nat): (r: seq<string>)
    ensures |r| == |members|
  {
    seq(|members|, i requires 0 <= i < |members| => PrettyMember(members[i], level))
  }

  lemma PrettyObject(members: seq<Member>, level: nat)
    ensures Pretty(Obj(members), level) == Framed('{', PrettyMembers(members, level + 1), '}', level)
  {
    assert seq(|members|, i requires 0 <= i < |members| => Quote(members[i].key) + ": " + Pretty(members[i].value, level + 1))
        == PrettyMembers(members, level + 1);
  }

  function PrettyItems(items: seq<Value>, level: nat): (r: seq<string>)
    ensures |r| == |items|
  {
    seq(|items|, i requires 0 <= i < |items| => Pretty(items[i], level))
  }

  lemma PrettyArray(items: seq<Value>, level: nat)
    ensures Pretty(Arr(items), level) == Framed('[', PrettyItems(items, level + 1), ']', level)
  {
    assert seq(|items|, i requires 0 <= i < |items| => Pretty(items[i], level + 1)) == PrettyItems(items, level + 1);
  }

  lemma ThreeMembers(a: Member, b: Member, c: Member, level: nat)
    ensures PrettyMembers([a, b, c], level) == [PrettyMember(a, level), PrettyMember(b, level), PrettyMember(c, level)]
  {
    hide PrettyMember;
  }

  // ----- at least as long as its parts --------------------------------------------------------------------------

  lemma {:induction false} ByteLenAtLeast(s: string)
    ensures ByteLen(s) >= |s|
  {
    if s != "" { ByteLenAtLeast(s[1..]); }
  }

  lemma {:induction false} EscapeAtLeast(s: string)
    ensures |Escape(s)| >= |s|
  {
    if s != "" { EscapeAtLeast(s[1..]); }
  }

  lemma TextAtLeast(s: string, level: nat)
    ensures |Pretty(Str(s), level)| >= |s|
  {
    EscapeAtLeast(s);
    assert Print(Str(s)) == Quote(s);
  }

  lemma {:induction false} LinesAtLeast(parts: seq<string>, level: nat, each: nat)
    requires forall i :: 0 <= i < |parts| ==> |parts[i]| >= each
    ensures |Lines(parts, level)| >= |parts| * each
  {
    if parts != [] {
      LinesAtLeast(parts[1..], level, each);
      assert |parts| * each == each + |parts[1..]| * each;
    }
  }

  lemma {:induction false} LinesHold(parts: seq<string>, level: nat, i: nat)
    requires i < |parts|
    ensures |Lines(parts, level)| >= |parts[i]|
  {
    if i > 0 { LinesHold(parts[1..], level, i - 1); }
  }

  lemma MembersAtLeast(members: seq<Member>, level: nat, each: nat)
    requires forall i :: 0 <= i < |members| ==> |Pretty(members[i].value, level + 1)| >= each
    ensures |Pretty(Obj(members), level)| >= |members| * each
  {
    hide Pretty, Quote;
    PrettyObject(members, level);
    LinesAtLeast(PrettyMembers(members, level + 1), level + 1, each);
  }

  lemma MemberAtLeast(members: seq<Member>, level: nat, i: nat)
    requires i < |members|
    ensures |Pretty(Obj(members), level)| >= |Pretty(members[i].value, level + 1)|
  {
    hide Pretty, Quote;
    PrettyObject(members, level);
    LinesHold(PrettyMembers(members, level + 1), level + 1, i);
  }

  // ----- and not much longer ------------------------------------------------------------------------------------

  lemma {:induction false} LinesAtMost(parts: seq<string>, level: nat, each: nat)
    requires forall i :: 0 <= i < |parts| ==> |parts[i]| <= each
    ensures |Lines(parts, level)| <= |parts| * (each + 2 * level + 2)
  {
    if parts != [] {
      LinesAtMost(parts[1..], level, each);
      assert |parts| * (each + 2 * level + 2) == (each + 2 * level + 2) + |parts[1..]| * (each + 2 * level + 2);
    }
  }

  lemma MembersAtMost(members: seq<Member>, level: nat, each: nat)
    requires forall i :: 0 <= i < |members| ==> 6 * |members[i].key| + 4 + |Pretty(members[i].value, level + 1)| <= each
    ensures |Pretty(Obj(members), level)| <= |members| * (each + 2 * level + 4) + 2 * level + 3
  {
    hide Pretty, Escape;
    PrettyObject(members, level);
    var parts := PrettyMembers(members, level + 1);
    forall i | 0 <= i < |parts| ensures |parts[i]| <= each {
      EscapeBound(members[i].key);
    }
    LinesAtMost(parts, level + 1, each);
  }

  lemma ItemsAtMost(items: seq<Value>, level: nat, each: nat)
    requires forall i :: 0 <= i < |items| ==> |Pretty(items[i], level + 1)| <= each
    ensures |Pretty(Arr(items), level)| <= |items| * (each + 2 * level + 4) + 2 * level + 3
  {
    hide Pretty;
    PrettyArray(items, level);
    LinesAtMost(PrettyItems(items, level + 1), level + 1, each);
  }

  lemma TextAtMost(s: string, level: nat)
    ensures |Pretty(Str(s), level)| <= 6 * |s| + 2
  {
    EscapeBound(s);
    assert Print(Str(s)) == Quote(s);
  }

  // ----- and as long in any order -------------------------------------------------------------------------------

  /** The bytes of the lines and of a comma after each. */
  function Weight(parts: seq<string>, level: nat): nat {
    if parts == [] then 0 else ByteLen("\n" + Indent(level) + parts[0]) + 1 + Weight(parts[1..], level)
  }

  lemma {:induction false} LinesWeigh(parts: seq<string>, level: nat)
    ensures ByteLen(Lines(parts, level)) == if parts == [] then 0 else Weight(parts, level) - 1
  {
    hide ByteLen;
    assert ByteLen("") == 0 && ByteLen(",") == 1 by { OneComma(); }
    if parts != [] {
      LinesWeigh(parts[1..], level);
      var line, comma, rest := "\n" + Indent(level) + parts[0], if |parts| == 1 then "" else ",", Lines(parts[1..], level);
      ByteLenAppend(line + comma, rest);
      ByteLenAppend(line, comma);
    }
  }

  lemma OneComma()
    ensures ByteLen("") == 0 && ByteLen(",") == 1
  {
    assert ","[1..] == "";
  }

  lemma {:induction false} WeightAppend(a: seq<string>, b: seq<string>, level: nat)
    ensures Weight(a + b, level) == Weight(a, level) + Weight(b, level)
  {
    hide ByteLen, Indent;
    if a == [] {
      assert a + b == b;
    } else {
      assert (a + b)[1..] == a[1..] + b;
      WeightAppend(a[1..], b, level);
    }
  }

  lemma {:induction false} WeightAnyOrder(a: seq<string>, b: seq<string>, level: nat)
    requires multiset(a) == multiset(b)
    ensures |a| == |b| && Weight(a, level) == Weight(b, level)
  {
    hide ByteLen, Indent, Weight;
    assert |multiset(a)| == |a| && |multiset(b)| == |b|;
    if a != [] {
      var i := Where(a, b);
      var rest := b[..i] + b[i + 1..];
      WithoutFirst(a, b, i);
      WeightAnyOrder(a[1..], rest, level);
      WeightAppend(b[..i], b[i + 1..], level);
      WeightAppend(b[..i], [b[i]] + b[i + 1..], level);
      WeightAppend([b[i]], b[i + 1..], level);
      WeightAppend([a[0]], a[1..], level);
      assert b == b[..i] + ([b[i]] + b[i + 1..]) && a == [a[0]] + a[1..];
    } else {
      assert b == [];
    }
  }

  lemma Where(a: seq<string>, b: seq<string>) returns (i: nat)
    requires a != [] && multiset(a) == multiset(b)
    ensures i < |b| && b[i] == a[0]
  {
    assert a[0] in multiset(b);
    i :| i < |b| && b[i] == a[0];
  }

  lemma WithoutFirst(a: seq<string>, b: seq<string>, i: nat)
    requires a != [] && i < |b| && b[i] == a[0] && multiset(a) == multiset(b)
    ensures multiset(a[1..]) == multiset(b[..i] + b[i + 1..])
  {
    assert a == [a[0]] + a[1..];
    assert b == b[..i] + ([b[i]] + b[i + 1..]);
    assert multiset(a[1..]) == multiset(a) - multiset{a[0]};
    assert multiset(b[..i] + b[i + 1..]) == multiset(b) - multiset{b[i]};
  }

  lemma FramedAnyOrder(open: char, a: seq<string>, b: seq<string>, close: char, level: nat)
    requires multiset(a) == multiset(b)
    ensures ByteLen(Framed(open, a, close, level)) == ByteLen(Framed(open, b, close, level))
  {
    hide ByteLen, Weight, Indent;
    WeightAnyOrder(a, b, level + 1);
    if a != [] {
      FramedWeighs(open, a, close, level);
      FramedWeighs(open, b, close, level);
    }
  }

  lemma FramedWeighs(open: char, parts: seq<string>, close: char, level: nat)
    requires parts != []
    ensures ByteLen(Framed(open, parts, close, level))
            == ByteLen([open]) + Weight(parts, level + 1) - 1 + ByteLen("\n" + Indent(level) + [close])
  {
    hide ByteLen, Lines, Indent;
    LinesWeigh(parts, level + 1);
    FramedParts(open, parts, close, level);
    ByteLenAppend([open], Lines(parts, level + 1));
    ByteLenAppend([open] + Lines(parts, level + 1), "\n" + Indent(level) + [close]);
  }

  lemma FramedParts(open: char, parts: seq<string>, close: char, level: nat)
    requires parts != []
    ensures Framed(open, parts, close, level) == [open] + Lines(parts, level + 1) + ("\n" + Indent(level) + [close])
  {
    hide Lines, Indent;
  }
}
