/** The limit on the length of the baseline file, which a proxy does not check before it writes. */
module TrustSize {
  import opened Wrappers
  import opened Text
  import opened Json
  import opened Baseline
  import opened BaselineSize
  import opened Enforcement
  import opened TrustRuns
  import opened TrustLimits

  // ----- a tool with a long description -----------------------------------------------------------------------

  function LongText(d: nat): (s: string)
    ensures |s| == d
  {
    seq(d, i => 'x')
  }

  function LongTool(i: nat, d: nat): Value {
    Obj([Member("name", Str(PaddedName(i))), Member("description", Str(LongText(d))), Member("inputSchema", Obj([]))])
  }

  lemma LongMembers(name: string, text: string)
    ensures var members := [Member("name", Str(name)), Member("description", Str(text)), Member("inputSchema", Obj([]))];
            && Find(members, "name") == Some(Str(name))
            && Find(members, "description") == Some(Str(text))
            && Find(members, "inputSchema") == Some(Obj([]))
  {
    var members := [Member("name", Str(name)), Member("description", Str(text)), Member("inputSchema", Obj([]))];
    assert members[1..] == [Member("description", Str(text)), Member("inputSchema", Obj([]))];
    assert members[1..][1..] == [Member("inputSchema", Obj([]))];
    assert Find(members, "inputSchema") == Find(members[1..], "inputSchema") == Find(members[1..][1..], "inputSchema");
  }

  lemma LongToolFacts(i: nat, d: nat)
    ensures RawName(LongTool(i, d)) == Some(PaddedName(i)) && TrimmedName(LongTool(i, d)) == Some("a")
    ensures Get(LongTool(i, d), "description") == Some(Str(LongText(d))) && Get(LongTool(i, d), "inputSchema") == Some(Obj([]))
  {
    PaddedToolFacts(i);
    LongMembers(PaddedName(i), LongText(d));
    hide PaddedName, PaddedTool, Find, LongText;
    assert RawName(PaddedTool(i)) == RawName(LongTool(i, d));
  }

  lemma LongToolIsFine(i: nat, d: nat)
    ensures Defects([LongTool(i, d)]) == [Fine] && NameOf(LongTool(i, d)) == PaddedName(i)
  {
    LongToolFacts(i, d);
    LetterA();
    hide PaddedName, LongText, Trim, RawName, Get, TrimmedName, ByteLen;
    var tools := [LongTool(i, d)];
    assert tools[1..] == [];
    assert Claims(tools, "a") == 1;
    assert DefectOf(LongTool(i, d), name => Claims(tools, name)) == Fine;
  }

  // ----- exchanges about one such tool after another ----------------------------------------------------------

  function LongEntry(i: nat, d: nat): Entry {
    NewEntry(Fingerprint(LongTool(i, d)), LongTool(i, d), 0)
  }

  function LongTools(n: nat, d: nat): map<string, Entry> {
    if n == 0 then map[] else LongTools(n - 1, d)[PaddedName(n - 1) := LongEntry(n - 1, d)]
  }

  lemma PaddedLength(i: nat)
    ensures |PaddedName(i)| == i + 1
    decreases i
  {
    if i > 0 {
      PaddedLength(i - 1);
    }
  }

  lemma LongToolsStep(n: nat, d: nat)
    ensures n > 0 ==> LongTools(n, d) == LongTools(n - 1, d)[PaddedName(n - 1) := LongEntry(n - 1, d)]
    ensures LongTools(0, d) == map[]
  {
  }

  /** Names of one to `n` plain characters, and one description. */
  ghost predicate Long(entries: map<string, Entry>, n: nat, d: nat) {
    |entries| == n
    && forall k :: k in entries ==> 0 < |k| <= n && ByteLen(k) == |k| && entries[k].description == LongText(d)
  }

  lemma LongerByOne(entries: map<string, Entry>, n: nat, d: nat, k: string, e: Entry)
    requires Long(entries, n, d) && |k| == n + 1 && ByteLen(k) == |k| && e.description == LongText(d)
    ensures Long(entries[k := e], n + 1, d)
  {
    hide ByteLen, LongText;
    assert k !in entries;
    assert entries[k := e].Keys == entries.Keys + {k};
    assert |entries[k := e]| == |entries[k := e].Keys| && |entries| == |entries.Keys|;
  }

  lemma LongNone(d: nat)
    ensures Long(LongTools(0, d), 0, d)
  {
  }

  lemma {:induction false} LongToolsAre(n: nat, d: nat)
    ensures Long(LongTools(n, d), n, d)
  {
    hide LongEntry, PaddedName, ByteLen, LongText, LongTools, Long;
    if n == 0 {
      LongNone(d);
    } else {
      LongToolsStep(n, d);
      LongToolsAre(n - 1, d);
      PaddedLength(n - 1);
      LongDescription(n - 1, d);
      LongerByOne(LongTools(n - 1, d), n - 1, d, PaddedName(n - 1), LongEntry(n - 1, d));
    }
  }

  lemma LongDescription(i: nat, d: nat)
    ensures LongEntry(i, d).description == LongText(d)
    ensures ByteLen(PaddedName(i)) == i + 1
  {
    LongToolFacts(i, d);
    SpacesBytes(i);
    hide Fingerprint, LongText, LongTool, ByteLen, RawName, TrimmedName, Spaces;
  }

  function LongFile(n: nat, d: nat): BaselineFile {
    BaselineFile(LongTools(n, d), map[], {})
  }

  function LongExchange(p: Policy, i: nat, d: nat): Step {
    ToolsList(0, p, Some(ListOf([LongTool(i, d)])), {}, true, i, 0)
  }

  function LongSteps(p: Policy, n: nat, d: nat): seq<Step> {
    if n == 0 then [StartProxy(0)] else LongSteps(p, n - 1, d) + [LongExchange(p, n - 1, d)]
  }

  function LongDisk(n: nat, d: nat): Option<DiskText> {
    if n == 0 then None else Some(DiskText(LongFile(n, d), n - 1))
  }

  lemma {:induction false} RunLast(w: World, steps: seq<Step>, s: Step)
    ensures Run(w, steps + [s]) == Next(Run(w, steps), s)
    decreases |steps|
  {
    hide Next;
    if steps == [] {
      assert [] + [s] == [s] && [s][1..] == [];
      assert Run(Next(w, s), []) == Next(w, s);
    } else {
      assert (steps + [s])[1..] == steps[1..] + [s];
      RunLast(Next(w, steps[0]), steps[1..], s);
    }
  }

  function LongWorld(n: nat, d: nat): map<nat, Trust> {
    map[0 := Trust(LongTools(n, d), map[], {}, false, {}, LongDisk(n, d))]
  }

  lemma LongStep(p: Policy, n: nat, d: nat, w: World)
    requires Plain(p) && w.disk == LongDisk(n, d) && w.operators == map[] && w.proxies == LongWorld(n, d)
    ensures var w' := Next(w, LongExchange(p, n, d));
            w'.disk == LongDisk(n + 1, d) && w'.operators == map[] && w'.proxies == LongWorld(n + 1, d)
  {
    var s := w.proxies[0];
    LongToolIsFine(n, d);
    NewName(n, d);
    InStepReloads(s, w.disk);
    LongSaved(n + 1, d);
    hide Next, LongTool, LongTools, LongDisk, ListOf, AnalyzeToolsList, Check, Saved, Fingerprint, NameOf, Defects, Reload;
    PlainExchange(p, LongTool(n, d), s, w.disk, true, n, 0);
    NextExchange(w, LongExchange(p, n, d), AnalyzeToolsList(p, Some(ListOf([LongTool(n, d)])), s, w.disk, {}, true, n, 0));
  }

  /** Each exchange registers its tool and saves. */
  lemma {:induction false} LongRun(p: Policy, n: nat, d: nat)
    requires Plain(p)
    ensures var w := Run(NOTHING, LongSteps(p, n, d));
            w.disk == LongDisk(n, d) && w.operators == map[] && w.proxies == LongWorld(n, d)
  {
    if n == 0 {
      LongStart(p, d);
    } else {
      LongRun(p, n - 1, d);
      hide Run, Next, LongExchange, LongWorld, LongDisk;
      LongStep(p, n - 1, d, Run(NOTHING, LongSteps(p, n - 1, d)));
      RunLast(NOTHING, LongSteps(p, n - 1, d), LongExchange(p, n - 1, d));
    }
  }

  lemma LongStart(p: Policy, d: nat)
    ensures var w := Run(NOTHING, [StartProxy(0)]);
            w.disk == LongDisk(0, d) && w.operators == map[] && w.proxies == LongWorld(0, d)
  {
    StartsEmpty();
    LongToolsStep(0, d);
    hide Next, LongTools;
    RunLast(NOTHING, [], StartProxy(0));
    assert Run(NOTHING, []) == NOTHING;
    assert [] + [StartProxy(0)] == [StartProxy(0)];
  }

  lemma InStepReloads(s: Trust, disk: Option<DiskText>)
    requires s.digest == disk
    ensures Reload(s, disk) == s
  {
  }

  lemma NewName(i: nat, d: nat)
    ensures PaddedName(i) !in LongTools(i, d)
  {
    LongToolsAre(i, d);
    PaddedLength(i);
    hide PaddedName, LongTools, ByteLen, LongText;
  }

  lemma LongSaved(n: nat, d: nat)
    requires n > 0
    ensures var s := Trust(LongTools(n - 1, d), map[], {}, false, {}, LongDisk(n - 1, d));
            Saved(Check(s, PaddedName(n - 1), Fingerprint(LongTool(n - 1, d)), LongTool(n - 1, d), 0), n - 1)
            == Trust(LongTools(n, d), map[], {}, false, {}, LongDisk(n, d))
  {
    var tool, name := LongTool(n - 1, d), PaddedName(n - 1);
    var s := Trust(LongTools(n - 1, d), map[], {}, false, {}, LongDisk(n - 1, d));
    NewName(n - 1, d);
    CheckedAndSaved(s, name, Fingerprint(tool), tool, n - 1);
    LongToolsStep(n, d);
    hide PaddedName, Fingerprint, LongTool, NewEntry, LongTools, Check, Saved;
    assert LongTools(n, d) == s.tools[name := NewEntry(Fingerprint(tool), tool, 0)];
    assert LongDisk(n, d) == Some(DiskText(BaselineFile(LongTools(n, d), map[], {}), n - 1));
  }

  lemma CheckedAndSaved(s: Trust, name: string, hash: string, tool: Value, spelling: nat)
    requires name !in s.tools
    ensures var tools := s.tools[name := NewEntry(hash, tool, 0)];
            Saved(Check(s, name, hash, tool, 0), spelling)
            == Trust(tools, s.pending, s.revoked, false, {}, Some(DiskText(BaselineFile(tools, s.pending, s.revoked), spelling)))
  {
    hide NewEntry;
  }

  /** A proxy that has registered and saved one tool after another, all within the limits on names and counts: once
      their descriptions exceed the limit on the file together, the file it has written no longer loads. */
  lemma LongStoreStopsLoading(p: Policy, n: nat, d: nat)
    requires Plain(p) && 0 < n <= MAX_TOOL_NAME_BYTES && n * d > MAX_BASELINE_BYTES
    ensures var w := Run(NOTHING, LongSteps(p, n, d));
            && w.disk.Some? && WithinLimits(w.disk.value.file)
            && FileBytes(w.disk.value.file) > MAX_BASELINE_BYTES && Load(w.disk).Err?
  {
    LongRun(p, n, d);
    hide Run, LongSteps, LongFile, FileBytes, WithinLimits;
    LongFileIsLong(n, d);
  }

  lemma LongFileIsLong(n: nat, d: nat)
    requires n <= MAX_TOOL_NAME_BYTES
    ensures WithinLimits(LongFile(n, d)) && FileBytes(LongFile(n, d)) >= n * d
  {
    LongToolsAre(n, d);
    hide LongTools, FileBytes, LongText, ByteLen;
    FileBytesAtLeast(LongFile(n, d), d);
    assert forall k :: k in LongTools(n, d) ==> k != "";
  }

  // ----- within the line limit --------------------------------------------------------------------------------

  predicate PlainAscii(s: string) {
    forall i :: 0 <= i < |s| ==> 32 <= s[i] as int < 127 && s[i] != '\"' && s[i] != '\\'
  }

  lemma {:induction false} AsciiBytes(s: string)
    requires Ascii(s)
    ensures ByteLen(s) == |s|
  {
    if s != "" { AsciiBytes(s[1..]); }
  }

  lemma {:induction false} PlainAsciiEscapes(s: string)
    requires PlainAscii(s)
    ensures Escape(s) == s
  {
    if s != "" {
      PlainAsciiEscapes(s[1..]);
      assert s == [s[0]] + s[1..];
    }
  }

  lemma {:induction false} PaddedIsPlain(i: nat)
    ensures PlainAscii(PaddedName(i)) && |PaddedName(i)| == i + 1
  {
    if i > 0 {
      PaddedIsPlain(i - 1);
      assert PaddedName(i) == " " + PaddedName(i - 1);
    }
  }

  function Quoted(s: string): string {
    "\"" + s + "\""
  }

  lemma PlainQuote(s: string)
    requires PlainAscii(s)
    ensures Quote(s) == Quoted(s)
  {
    PlainAsciiEscapes(s);
  }

  lemma ToolText(name: string, text: string)
    ensures Print(Obj([Member("name", Str(name)), Member("description", Str(text)), Member("inputSchema", Obj([]))]))
            == "{" + Quote("name") + ":" + Quote(name) + "," + Quote("description") + ":" + Quote(text)
               + "," + Quote("inputSchema") + ":{}}"
  {
    hide Quote;
    var a, b, c := Member("name", Str(name)), Member("description", Str(text)), Member("inputSchema", Obj([]));
    assert [a, b, c][1..] == [b, c] && [b, c][1..] == [c] && [c][1..] == [];
    assert PrintMember(a) == Quote("name") + ":" + Quote(name);
    assert PrintMember(b) == Quote("description") + ":" + Quote(text);
    assert PrintMember(c) == Quote("inputSchema") + ":" + "{}";
    hide PrintMember;
    assert MoreMembers([c]) == "," + PrintMember(c);
    assert MoreMembers([b, c]) == "," + PrintMember(b) + MoreMembers([c]);
    assert PrintMembers([a, b, c]) == PrintMember(a) + MoreMembers([b, c]);
  }

  lemma ListText(tool: Value)
    ensures Print(ListOf([tool])) == "{" + Quote("tools") + ":[" + Print(tool) + "]}"
  {
    hide Quote;
    var m := Member("tools", Arr([tool]));
    assert [tool][1..] == [] && [m][1..] == [];
    assert PrintItems([tool]) == Print(tool);
    assert PrintMember(m) == Quote("tools") + ":" + ("[" + Print(tool) + "]");
    assert PrintMembers([m]) == PrintMember(m);
  }

  /** Each of these lists is a line of little more than its description. */
  lemma LongLine(i: nat, d: nat)
    requires i < MAX_TOOL_NAME_BYTES
    ensures ByteLen(Print(ListOf([LongTool(i, d)]))) <= d + 300
  {
    var name, text := PaddedName(i), LongText(d);
    PaddedIsPlain(i);
    assert PlainAscii(text);
    LineBytes(name, text);
  }

  lemma LineBytes(name: string, text: string)
    requires PlainAscii(name) && PlainAscii(text)
    ensures ByteLen(Print(ListOf([Obj([Member("name", Str(name)), Member("description", Str(text)), Member("inputSchema", Obj([]))])])))
            <= |name| + |text| + 100
  {
    var tool := Obj([Member("name", Str(name)), Member("description", Str(text)), Member("inputSchema", Obj([]))]);
    ListText(tool);
    ToolIsAscii(name, text);
    KeysArePlain();
    LiteralsAreAscii();
    hide Print, ListOf, Quote, ByteLen, Ascii, Quoted;
    var a := "{" + Quoted("tools");
    Add("{", Quoted("tools"));
    Add(a, ":[");
    Add(a + ":[", Print(tool));
    Add(a + ":[" + Print(tool), "]}");
    assert |Quoted("tools")| == 7 by { hide *; QuotedLength("tools"); }
    AsciiBytes(Print(ListOf([tool])));
  }

  lemma QuotedLength(s: string)
    ensures |Quoted(s)| == |s| + 2
  {
  }

  lemma ToolIsAscii(name: string, text: string)
    requires PlainAscii(name) && PlainAscii(text)
    ensures var tool := Obj([Member("name", Str(name)), Member("description", Str(text)), Member("inputSchema", Obj([]))]);
            Ascii(Print(tool)) && |Print(tool)| <= |name| + |text| + 80
  {
    ToolText(name, text);
    PlainQuote(name);
    PlainQuote(text);
    KeysArePlain();
    LiteralsAreAscii();
    QuotedIsAscii(name);
    QuotedIsAscii(text);
    QuotedLength("name");
    QuotedLength("description");
    QuotedLength("inputSchema");
    hide Print, Quote, Ascii, Quoted;
    var a := "{" + Quoted("name");
    Add("{", Quoted("name"));
    var b := a + ":";
    Add(a, ":");
    var c := b + Quoted(name);
    Add(b, Quoted(name));
    var d := c + ",";
    Add(c, ",");
    var e := d + Quoted("description");
    Add(d, Quoted("description"));
    var f := e + ":";
    Add(e, ":");
    var g := f + Quoted(text);
    Add(f, Quoted(text));
    var h := g + ",";
    Add(g, ",");
    var i := h + Quoted("inputSchema");
    Add(h, Quoted("inputSchema"));
    Add(i, ":{}}");
  }

  lemma Add(a: string, b: string)
    requires Ascii(a) && Ascii(b)
    ensures Ascii(a + b)
  {
  }

  lemma QuotedIsAscii(s: string)
    requires PlainAscii(s)
    ensures Ascii(Quoted(s)) && |Quoted(s)| == |s| + 2
  {
  }

  predicate Ascii(s: string) {
    forall i :: 0 <= i < |s| ==> s[i] as int < 128
  }

  lemma LiteralsAreAscii()
    ensures Ascii("{") && Ascii(":") && Ascii(",") && Ascii(":{}}") && Ascii(":[") && Ascii("]}") && Ascii("\"")
    ensures Ascii(Quoted("tools")) && Ascii(Quoted("name")) && Ascii(Quoted("description")) && Ascii(Quoted("inputSchema"))
  {
  }

  lemma KeysArePlain()
    ensures Quote("tools") == Quoted("tools") && Quote("name") == Quoted("name")
    ensures Quote("description") == Quoted("description") && Quote("inputSchema") == Quoted("inputSchema")
  {
    hide Quote;
    PlainQuote("tools");
    PlainQuote("name");
    PlainQuote("description");
    PlainQuote("inputSchema");
  }
}
