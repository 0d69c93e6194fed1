/** How long a baseline file is: what bounds it from both sides, and that the order of its names does not matter. */
module BaselineSize {
  import opened Text
  import opened Json
  import opened Names
  import opened PrettyJson
  import opened Baseline

  // ----- in any order -------------------------------------------------------------------------------------------

  function EntryPart(entries: map<string, Entry>, k: string): string {
    PrettyMember(EntryMember(entries, k), 2)
  }

  function Mapped(f: string -> string, names: seq<string>): (r: seq<string>)
    ensures |r| == |names|
  {
    seq(|names|, i requires 0 <= i < |names| => f(names[i]))
  }

  lemma {:induction false} MappedAnyOrder(f: string -> string, a: seq<string>, b: seq<string>)
    requires multiset(a) == multiset(b)
    ensures multiset(Mapped(f, a)) == multiset(Mapped(f, b))
  {
    assert |multiset(a)| == |a| && |multiset(b)| == |b|;
    if a != [] {
      var i := Where(a, b);
      WithoutFirst(a, b, i);
      MappedAnyOrder(f, a[1..], b[..i] + b[i + 1..]);
      assert Mapped(f, a) == [f(a[0])] + Mapped(f, a[1..]);
      MappedWithout(f, b, i);
    } else {
      assert b == [];
    }
  }

  lemma MappedWithout(f: string -> string, b: seq<string>, i: nat)
    requires i < |b|
    ensures multiset(Mapped(f, b)) == multiset{f(b[i])} + multiset(Mapped(f, b[..i] + b[i + 1..]))
  {
    assert Mapped(f, b) == Mapped(f, b[..i]) + ([f(b[i])] + Mapped(f, b[i + 1..]));
    assert Mapped(f, b[..i] + b[i + 1..]) == Mapped(f, b[..i]) + Mapped(f, b[i + 1..]);
  }

  lemma EntriesAre(entries: map<string, Entry>, order: seq<string>)
    ensures Pretty(EntriesValue(entries, order), 1) == Framed('{', Mapped(k => EntryPart(entries, k), order), '}', 1)
  {
    hide EntryMember, Pretty, Framed;
    var members := EntriesValue(entries, order).members;
    PrettyObject(members, 1);
    assert PrettyMembers(members, 2) == Mapped(k => EntryPart(entries, k), order);
  }

  lemma EntriesAnyOrder(entries: map<string, Entry>, order: seq<string>)
    requires Lists(order, entries.Keys)
    ensures ByteLen(Pretty(EntriesValue(entries, order), 1)) == ByteLen(Pretty(EntriesValue(entries, Sorted(entries.Keys)), 1))
  {
    hide EntriesValue, EntryPart, Pretty, Framed, Sorted, Mapped;
    SortedLists(entries.Keys);
    EntriesAre(entries, order);
    EntriesAre(entries, Sorted(entries.Keys));
    MappedAnyOrder(k => EntryPart(entries, k), order, Sorted(entries.Keys));
    FramedAnyOrder('{', Mapped(k => EntryPart(entries, k), order), Mapped(k => EntryPart(entries, k), Sorted(entries.Keys)), '}', 1);
  }

  function TextPart(s: string): string {
    Pretty(Str(s), 2)
  }

  lemma TextsAre(order: seq<string>)
    ensures Pretty(TextsValue(order), 1) == Framed('[', Mapped(TextPart, order), ']', 1)
  {
    hide Pretty, Framed;
    var items := TextsValue(order).items;
    PrettyArray(items, 1);
    assert PrettyItems(items, 2) == Mapped(TextPart, order);
  }

  lemma TextsAnyOrder(names: set<string>, order: seq<string>)
    requires Lists(order, names)
    ensures ByteLen(Pretty(TextsValue(order), 1)) == ByteLen(Pretty(TextsValue(Sorted(names)), 1))
  {
    hide TextsValue, TextPart, Pretty, Framed, Sorted, Mapped;
    SortedLists(names);
    TextsAre(order);
    TextsAre(Sorted(names));
    MappedAnyOrder(TextPart, order, Sorted(names));
    FramedAnyOrder('[', Mapped(TextPart, order), Mapped(TextPart, Sorted(names)), ']', 1);
  }

  lemma RootParts(a: Value, b: Value, c: Value)
    ensures Pretty(Root(a, b, c), 0)
            == Framed('{', [Quote("tools") + ": " + Pretty(a, 1), Quote("pending") + ": " + Pretty(b, 1),
                            Quote("revoked") + ": " + Pretty(c, 1)], '}', 0)
  {
    hide Pretty, Quote, Framed;
    PrettyObject(Root(a, b, c).members, 0);
    ThreeMembers(Member("tools", a), Member("pending", b), Member("revoked", c), 1);
  }

  lemma WeightOfThree(x: string, y: string, z: string, level: nat)
    ensures Weight([x, y, z], level) == ByteLen("\n" + Indent(level) + x) + ByteLen("\n" + Indent(level) + y)
                                      + ByteLen("\n" + Indent(level) + z) + 3
  {
    hide ByteLen, Indent;
    assert [x, y, z][1..] == [y, z] && [y, z][1..] == [z] && [z][1..] == [];
    assert Weight([z], level) == ByteLen("\n" + Indent(level) + z) + 1;
    assert Weight([y, z], level) == ByteLen("\n" + Indent(level) + y) + 1 + Weight([z], level);
  }

  function PartFrame(key: string): nat {
    ByteLen("\n" + Indent(1) + (Quote(key) + ": "))
  }

  lemma PartBytes(key: string, v: Value)
    ensures ByteLen("\n" + Indent(1) + (Quote(key) + ": " + Pretty(v, 1))) == PartFrame(key) + ByteLen(Pretty(v, 1))
  {
    hide Pretty, ByteLen, Quote, Indent;
    ByteLenAppend("\n" + Indent(1) + (Quote(key) + ": "), Pretty(v, 1));
    assert "\n" + Indent(1) + (Quote(key) + ": " + Pretty(v, 1)) == "\n" + Indent(1) + (Quote(key) + ": ") + Pretty(v, 1);
  }

  lemma RootSum(a: Value, b: Value, c: Value)
    ensures ByteLen(Pretty(Root(a, b, c), 0))
            == ByteLen(['{']) + PartFrame("tools") + PartFrame("pending") + PartFrame("revoked") + 2 + ByteLen("\n" + Indent(0) + ['}'])
               + ByteLen(Pretty(a, 1)) + ByteLen(Pretty(b, 1)) + ByteLen(Pretty(c, 1))
  {
    RootParts(a, b, c);
    PartBytes("tools", a);
    PartBytes("pending", b);
    PartBytes("revoked", c);
    hide Pretty, ByteLen, Quote, Root, Indent, Weight, Framed, PartFrame;
    var x, y, z := Quote("tools") + ": " + Pretty(a, 1), Quote("pending") + ": " + Pretty(b, 1), Quote("revoked") + ": " + Pretty(c, 1);
    WeightOfThree(x, y, z, 1);
    FramedWeighs('{', [x, y, z], '}', 0);
  }

  lemma RootBytes(a: Value, b: Value, c: Value, a': Value, b': Value, c': Value)
    requires ByteLen(Pretty(a, 1)) == ByteLen(Pretty(a', 1)) && ByteLen(Pretty(b, 1)) == ByteLen(Pretty(b', 1))
    requires ByteLen(Pretty(c, 1)) == ByteLen(Pretty(c', 1))
    ensures ByteLen(Pretty(Root(a, b, c), 0)) == ByteLen(Pretty(Root(a', b', c'), 0))
  {
    hide *;
    RootSum(a, b, c);
    RootSum(a', b', c');
  }

  /** However the names of a file are ordered when it is written, it has the same length. */
  lemma FileBytesInAnyOrder(f: BaselineFile, tools: seq<string>, pending: seq<string>, revoked: seq<string>)
    requires Lists(tools, f.tools.Keys) && Lists(pending, f.pending.Keys) && Lists(revoked, f.revoked)
    ensures ByteLen(Pretty(FileValue(f, tools, pending, revoked), 0)) == FileBytes(f)
  {
    EntriesAnyOrder(f.tools, tools);
    EntriesAnyOrder(f.pending, pending);
    TextsAnyOrder(f.revoked, revoked);
    hide Pretty, ByteLen, EntriesValue, TextsValue, Sorted, Root;
    RootBytes(EntriesValue(f.tools, tools), EntriesValue(f.pending, pending), TextsValue(revoked),
              EntriesValue(f.tools, Sorted(f.tools.Keys)), EntriesValue(f.pending, Sorted(f.pending.Keys)),
              TextsValue(Sorted(f.revoked)));
  }

  // ----- bounds -------------------------------------------------------------------------------------------------

  lemma RootAtLeast(a: Value, b: Value, c: Value)
    ensures |Pretty(Root(a, b, c), 0)| >= |Pretty(a, 1)|
  {
    hide Pretty;
    MemberAtLeast(Root(a, b, c).members, 0, 0);
  }

  lemma RootAtMost(a: Value, b: Value, c: Value, each: nat)
    requires |Pretty(a, 1)| <= each && |Pretty(b, 1)| <= each && |Pretty(c, 1)| <= each
    ensures |Pretty(Root(a, b, c), 0)| <= 3 * (each + 50) + 3
  {
    hide Pretty;
    var members := Root(a, b, c).members;
    assert |members| == 3 && members[0].value == a && members[1].value == b && members[2].value == c;
    MembersAtMost(members, 0, each + 46);
  }

  lemma EntriesAtLeast(entries: map<string, Entry>, each: nat)
    requires forall k :: k in entries ==> |entries[k].description| >= each
    ensures |Pretty(EntriesValue(entries, Sorted(entries.Keys)), 1)| >= |entries| * each
  {
    hide Sorted, EntryValue, Pretty;
    var order := Sorted(entries.Keys);
    var members := EntriesValue(entries, order).members;
    forall i | 0 <= i < |members| ensures |Pretty(members[i].value, 2)| >= each {
      SortedAt(entries.Keys, i);
      EntryAtLeast(entries[order[i]]);
    }
    MembersAtLeast(members, 1, each);
  }

  /** Each description is in the file. */
  lemma FileBytesAtLeast(f: BaselineFile, each: nat)
    requires forall k :: k in f.tools ==> |f.tools[k].description| >= each
    ensures FileBytes(f) >= |f.tools| * each
  {
    EntriesAtLeast(f.tools, each);
    hide Sorted, EntriesValue, TextsValue, Pretty, Root, ByteLen;
    var a, b, c := EntriesValue(f.tools, Sorted(f.tools.Keys)), EntriesValue(f.pending, Sorted(f.pending.Keys)), TextsValue(Sorted(f.revoked));
    RootAtLeast(a, b, c);
    ByteLenAtLeast(Pretty(Root(a, b, c), 0));
  }

  lemma EntryAtLeast(e: Entry)
    ensures |Pretty(EntryValue(e), 2)| >= |e.description|
  {
    hide Pretty;
    MemberAtLeast(EntryValue(e).members, 2, 1);
    TextAtLeast(e.description, 3);
  }

  /** An entry without a description, first seen at the start of time. */
  predicate SmallEntry(e: Entry) {
    e.description == "" && e.firstSeenMs == 0 && |Pretty(e.tool, 3)| <= 1_000
  }

  predicate SmallEntries(entries: map<string, Entry>) {
    |entries| <= 10 && forall k :: k in entries ==> |k| <= 10 && SmallEntry(entries[k])
  }

  lemma SmallEntryAtMost(e: Entry)
    requires SmallEntry(e)
    ensures |Pretty(EntryValue(e), 2)| <= 6_100
  {
    var members := EntryValue(e).members;
    TextAtMost(seq(HASH_DIGITS, i => '0'), 3);
    TextAtMost("", 3);
    assert Pretty(Num(Decimal(0)), 3) == Decimal(0) == "0";
    hide Pretty;
    MembersAtMost(members, 2, 1_500);
  }

  lemma SmallEntriesAtMost(entries: map<string, Entry>)
    requires SmallEntries(entries)
    ensures |Pretty(EntriesValue(entries, Sorted(entries.Keys)), 1)| <= 63_000
  {
    hide Sorted, EntryValue, SmallEntry, Pretty;
    var order := Sorted(entries.Keys);
    var members := EntriesValue(entries, order).members;
    forall i | 0 <= i < |members| ensures 6 * |members[i].key| + 4 + |Pretty(members[i].value, 2)| <= 6_200 {
      SortedAt(entries.Keys, i);
      SmallEntryAtMost(entries[order[i]]);
    }
    MembersAtMost(members, 1, 6_200);
    AtMostTen(|members|, 6_206);
  }

  lemma AtMostTen(n: nat, each: nat)
    requires n <= 10
    ensures n * each <= 10 * each
  {
  }

  lemma SmallTextsAtMost(names: set<string>)
    requires |names| <= 10 && forall k :: k in names ==> |k| <= 10
    ensures |Pretty(TextsValue(Sorted(names)), 1)| <= 63_000
  {
    hide Sorted, Pretty;
    var order := Sorted(names);
    var items := TextsValue(order).items;
    forall i | 0 <= i < |items| ensures |Pretty(items[i], 2)| <= 62 {
      SortedAt(names, i);
      TextAtMost(order[i], 2);
    }
    ItemsAtMost(items, 1, 62);
    AtMostTen(|items|, 68);
  }

  /** A file of a few small entries is far below the limit. */
  lemma SmallFile(f: BaselineFile)
    requires SmallEntries(f.tools) && SmallEntries(f.pending)
    requires |f.revoked| <= 10 && forall k :: k in f.revoked ==> |k| <= 10
    ensures FileBytes(f) <= MAX_BASELINE_BYTES
  {
    SmallEntriesAtMost(f.tools);
    SmallEntriesAtMost(f.pending);
    SmallTextsAtMost(f.revoked);
    hide Sorted, EntriesValue, TextsValue, Pretty, Root, ByteLen;
    var a, b, c := EntriesValue(f.tools, Sorted(f.tools.Keys)), EntriesValue(f.pending, Sorted(f.pending.Keys)), TextsValue(Sorted(f.revoked));
    RootAtMost(a, b, c, 63_000);
    ByteLenBound(Pretty(Root(a, b, c), 0));
  }
}
