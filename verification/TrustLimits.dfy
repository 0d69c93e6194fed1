/** Where the trust store's guarantees end: two conditions the code does not check, each with the case
    that fails and the exact line it is drawn on. */
module TrustLimits {
  import opened Wrappers
  import opened Text
  import opened Json
  import opened PrettyJson
  import opened Baseline
  import opened BaselineSize
  import opened Enforcement
  import opened Vouching
  import opened TrustRuns

  // ----- an operator command writes back what it loaded before the lock ------------------------------------

  /** A command that writes leaves on disk exactly the revocations of the file it loaded, changed by the
      command itself: whatever was revoked on disk in between survives only if it was loaded. */
  lemma OperatorRevocations(w: World, op: nat, c: Command, spelling: nat, name: string)
    requires op in w.operators && Commanded(w.operators[op], c) != w.operators[op] && c.name != name
    ensures RevokedOnDisk(AfterOperator(w, op, c, true, spelling), name) <==> name in w.operators[op].revoked
  {
  }

  /** So it drops no revocation, but that of the name it approves, exactly when it had loaded every other that is on
      disk by the time it writes. */
  lemma OperatorDropsNoOther(w: World, op: nat, c: Command, spelling: nat)
    requires op in w.operators && Commanded(w.operators[op], c) != w.operators[op] && w.disk.Some?
    ensures (forall name :: RevokedOnDisk(w, name) && name != c.name ==> RevokedOnDisk(AfterOperator(w, op, c, true, spelling), name))
            <==> w.disk.value.file.revoked - {c.name} <= w.operators[op].revoked
  {
    var w' := AfterOperator(w, op, c, true, spelling);
    hide AfterOperator, Commanded;
    forall name | name != c.name ensures RevokedOnDisk(w', name) <==> name in w.operators[op].revoked {
      OperatorRevocations(w, op, c, spelling, name);
    }
    assert forall name :: RevokedOnDisk(w, name) <==> name in w.disk.value.file.revoked;
  }

  function Named(name: string): Value {
    Obj([Member("name", Str(name))])
  }

  function EntryOf(name: string): Entry {
    NewEntry(Fingerprint(Named(name)), Named(name), 0)
  }

  lemma NamedFacts(name: string)
    ensures RawName(Named(name)) == Some(name) && Description(Named(name)) == "" && Authentic(name, EntryOf(name))
  {
    hide Fingerprint;
    var members := Named(name).members;
    assert members[1..] == [];
    assert Find(members, "name") == Some(Str(name));
    assert Find(members, "description") == Find(members[1..], "description");
  }

  lemma NamedIsSmall(name: string)
    requires |name| <= 2
    ensures SmallEntry(EntryOf(name))
  {
    NamedFacts(name);
    TextAtMost(name, 4);
    hide Fingerprint, Pretty, RawName, Authentic;
    MembersAtMost([Member("name", Str(name))], 3, 60);
  }

  /** `a` is trusted and `b` awaits approval. */
  const BEFORE := BaselineFile(map["a" := EntryOf("a")], map["b" := EntryOf("b")], {})

  lemma BeforeLoads()
    ensures Loads(BEFORE)
  {
    BeforeIsSmall();
    BeforeIsAuthentic();
    hide EntryOf, FileBytes, AllAuthentic;
    assert "a"[1..] == "" && "b"[1..] == "";
    assert ByteLen("a") == 1 && ByteLen("b") == 1;
    assert |BEFORE.tools| == 1 && |BEFORE.pending| == 1;
  }

  lemma BeforeIsAuthentic()
    ensures AllAuthentic(BEFORE.tools) && AllAuthentic(BEFORE.pending)
  {
    NamedFacts("a");
    NamedFacts("b");
    hide Authentic, EntryOf;
  }

  lemma BeforeIsSmall()
    ensures FileBytes(BEFORE) <= MAX_BASELINE_BYTES
  {
    NamedIsSmall("a");
    NamedIsSmall("b");
    hide EntryOf, SmallEntry, FileBytes;
    PairIsSmall(EntryOf("a"), EntryOf("b"));
  }

  lemma PairIsSmall(a: Entry, b: Entry)
    requires SmallEntry(a) && SmallEntry(b)
    ensures FileBytes(BaselineFile(map["a" := a], map["b" := b], {})) <= MAX_BASELINE_BYTES
  {
    hide SmallEntry, FileBytes;
    SmallFile(BaselineFile(map["a" := a], map["b" := b], {}));
  }

  /** Two commands that overlap: one loads, another revokes `a`, and the first then approves `b`. The
      revocation is off the disk again. */
  lemma OverlappingApproveDropsRevocation()
    ensures var w := World(Some(DiskText(BEFORE, 0)), map[], map[], {"a"});
            var w1 := Next(Next(w, LoadOperator(1)), LoadOperator(2));
            var w2 := Next(w1, RunOperator(2, RevokeTool("a"), true, 1));
            var w3 := Next(w2, RunOperator(1, ApproveTool("b"), true, 2));
            RevokedOnDisk(w2, "a") && !RevokedOnDisk(w3, "a")
  {
    BeforeLoads();
    hide EntryOf, Loads;
    var w := World(Some(DiskText(BEFORE, 0)), map[], map[], {"a"});
    var loaded := Load(w.disk).value;
    assert loaded.tools == BEFORE.tools && loaded.pending == BEFORE.pending && loaded.revoked == {};
    var w1 := Next(Next(w, LoadOperator(1)), LoadOperator(2));
    assert w1.operators[1] == loaded && w1.operators[2] == loaded;
    assert Commanded(loaded, RevokeTool("a")).revoked == {"a"};
    assert "b" in loaded.pending && Commanded(loaded, ApproveTool("b")).dirty;
    assert Commanded(loaded, ApproveTool("b")).revoked == {};
  }

  // ----- a name is measured trimmed by the proxy, untrimmed by load ------------------------------------------

  function Spaces(n: nat): string {
    if n == 0 then "" else " " + Spaces(n - 1)
  }

  function PaddedName(n: nat): string {
    Spaces(n) + "a"
  }

  lemma SpacesUnfold(n: nat)
    ensures Spaces(0) + "a" == "a"
    ensures n > 0 ==> Spaces(n) + "a" != "" && (Spaces(n) + "a")[0] == ' ' && (Spaces(n) + "a")[1..] == Spaces(n - 1) + "a"
  {
  }

  lemma LetterA()
    ensures TrimStart("a") == "a" && TrimEnd("a") == "a" && ByteLen("a") == 1
  {
    assert "a"[1..] == "" && !IsSpace('a') && |Utf8('a')| == 1;
    hide IsSpace, Utf8;
  }

  lemma {:induction false} SpacesTrim(n: nat)
    ensures TrimStart(Spaces(n) + "a") == "a"
  {
    SpacesUnfold(n);
    LetterA();
    hide Spaces, TrimStart;
    if n > 0 {
      SpacesTrim(n - 1);
      SpaceGoes(Spaces(n) + "a");
    }
  }

  lemma SpaceGoes(s: string)
    requires s != "" && s[0] == ' '
    ensures TrimStart(s) == TrimStart(s[1..])
  {
  }

  lemma {:induction false} SpacesBytes(n: nat)
    ensures ByteLen(Spaces(n) + "a") == n + 1
  {
    SpacesUnfold(n);
    LetterA();
    hide Spaces;
    if n > 0 { SpacesBytes(n - 1); }
  }

  function PaddedTool(n: nat): Value {
    Obj([Member("name", Str(PaddedName(n))), Member("inputSchema", Obj([]))])
  }

  lemma PaddedToolFacts(n: nat)
    ensures RawName(PaddedTool(n)) == Some(PaddedName(n)) && TrimmedName(PaddedTool(n)) == Some("a")
    ensures Get(PaddedTool(n), "description") == None && Get(PaddedTool(n), "inputSchema") == Some(Obj([]))
    ensures ByteLen(PaddedName(n)) == n + 1
  {
    SpacesTrim(n);
    SpacesBytes(n);
    LetterA();
    PaddedMembers(PaddedName(n));
    hide Spaces, Find, TrimStart, TrimEnd, ByteLen;
  }

  lemma PaddedMembers(name: string)
    ensures var members := [Member("name", Str(name)), Member("inputSchema", Obj([]))];
            && Find(members, "name") == Some(Str(name))
            && Find(members, "description") == None
            && Find(members, "inputSchema") == Some(Obj([]))
  {
    var members := [Member("name", Str(name)), Member("inputSchema", Obj([]))];
    assert members[1..] == [Member("inputSchema", Obj([]))] && members[1..][1..] == [];
    assert Find([], "description") == None;
  }

  lemma PaddedToolIsFine(n: nat)
    ensures Defects([PaddedTool(n)]) == [Fine] && NameOf(PaddedTool(n)) == PaddedName(n)
  {
    PaddedToolFacts(n);
    LetterA();
    hide PaddedName, PaddedTool, Trim, RawName, Get, TrimmedName, ByteLen;
    var tools := [PaddedTool(n)];
    assert tools[1..] == [];
    assert Claims(tools, "a") == 1;
    assert DefectOf(PaddedTool(n), name => Claims(tools, name)) == Fine by {
      assert PaddedTool(n).Obj? by { assert RawName(PaddedTool(n)).Some?; NamedIsObject(PaddedTool(n)); }
    }
  }

  /** A name padded past 128 bytes passes inspection, whatever the policy and the store; and if deciding on its tool
      changes the store at all, the file saved from that store no longer loads. */
  lemma PaddedNameStopsLoading(p: Policy, n: nat, s: Trust, now: nat, spelling: nat)
    requires n >= MAX_TOOL_NAME_BYTES
    ensures Defects([PaddedTool(n)]) == [Fine]
    ensures var d := Decide(p, 0, PaddedTool(n), Fine, s, now);
            d.store != s ==> Load(Saved(d.store, spelling).digest).Err?
  {
    PaddedToolFacts(n);
    PaddedToolIsFine(n);
    hide PaddedName, PaddedTool, Trim, RawName, Get, NameOf, Fingerprint, ByteLen, NewEntry, Trust.Contains;
    var d := Decide(p, 0, PaddedTool(n), Fine, s, now);
    if d.store != s {
      assert PaddedName(n) in d.store.tools || PaddedName(n) in d.store.pending;
      assert !NamesInBounds(d.store.tools) || !NamesInBounds(d.store.pending);
    }
  }

  /** It changes the store exactly when the tool is neither secret nor revoked nor blocked, and is not known yet: to
      be registered it must not be trusted, and to be parked it must not be waiting either. */
  lemma PaddedNameIsStoredWhen(p: Policy, n: nat, s: Trust, now: nat)
    ensures var name := PaddedName(n);
            Decide(p, 0, PaddedTool(n), Fine, s, now).store != s
            <==> && name !in p.secret && name !in s.revoked
                 && !(p.mode == Enforce && p.suspicious("") && !s.Contains(name))
                 && if p.firstContact == ApproveFirst && !s.Contains(name) then name !in s.pending else name !in s.tools
  {
    PaddedToolFacts(n);
    PaddedToolIsFine(n);
    assert Description(PaddedTool(n)) == "" by { assert Get(PaddedTool(n), "description") == None; }
    var tool, name := PaddedTool(n), PaddedName(n);
    CheckChangesWhen(s, name, Fingerprint(tool), tool, now);
    hide PaddedName, PaddedTool, Trim, RawName, Get, NameOf, Fingerprint, ByteLen, Trust.Contains, Description, Check, Park;
  }

  lemma CheckChangesWhen(s: Trust, name: string, hash: string, tool: Value, now: nat)
    ensures Check(s, name, hash, tool, now) != s <==> name !in s.tools
    ensures Park(s, name, hash, tool, now) != s <==> name !in s.pending
  {
    hide NewEntry;
    if name !in s.tools {
      assert name in Check(s, name, hash, tool, now).tools;
    }
    if name !in s.pending {
      assert name in Park(s, name, hash, tool, now).pending;
    }
  }

  lemma NamedIsObject(tool: Value)
    requires RawName(tool).Some?
    ensures tool.Obj?
  {
  }

  // ----- a revocation comes back from a proxy that could not save ---------------------------------------------

  function ListOf(tools: seq<Value>): Value {
    Obj([Member("tools", Arr(tools))])
  }

  lemma ListIsAdvertised(tools: seq<Value>)
    ensures AdvertisedTools(Some(ListOf(tools))) == Some(tools)
  {
  }

  predicate Plain(p: Policy) {
    p.mode == Monitor && p.firstContact == TrustFirst && p.secret == {} && p.descriptors == []
  }

  lemma OneToolDecided(p: Policy, tool: Value, s: Trust, now: nat)
    requires Plain(p) && Defects([tool]) == [Fine] && NameOf(tool) !in s.tools && NameOf(tool) !in s.revoked
    ensures var g := Analyze(p, [tool], 1, s, {}, now);
            && g.store == Check(s, NameOf(tool), Fingerprint(tool), tool, now)
            && g.clean == None && g.blocked == {} && !g.failed
  {
    hide Defects, Fingerprint, NameOf, Description, NewEntry, Trust.Contains;
    assert Analyze(p, [tool], 0, s, {}, now) == Start(s);
  }

  /** An exchange about one new tool, or about none, under the plain policy. */
  lemma PlainExchange(p: Policy, tool: Value, s: Trust, disk: Option<DiskText>, writeOk: bool, spelling: nat, now: nat)
    requires Plain(p) && Defects([tool]) == [Fine]
    requires NameOf(tool) !in Reload(s, disk).tools && NameOf(tool) !in Reload(s, disk).revoked
    ensures var t := Check(Reload(s, disk), NameOf(tool), Fingerprint(tool), tool, now);
            var x := AnalyzeToolsList(p, Some(ListOf([tool])), s, disk, {}, writeOk, spelling, now);
            && x.Analyzed?
            && x.store == (if writeOk then Saved(t, spelling) else t)
            && x.disk == (if writeOk then Saved(t, spelling).digest else disk)
  {
    ListIsAdvertised([tool]);
    OneToolDecided(p, tool, Reload(s, disk), now);
    hide Analyze, ListOf, AdvertisedTools, NameOf, Defects, Fingerprint, Reload, Rebuild, Unblocked, NewEntry;
  }

  lemma EmptyExchange(p: Policy, s: Trust, disk: Option<DiskText>, writeOk: bool, spelling: nat, now: nat)
    requires Plain(p)
    ensures AnalyzeToolsList(p, Some(ListOf([])), s, disk, {}, writeOk, spelling, now).Analyzed?
  {
    ListIsAdvertised([]);
    AnalyzeStart(p, [], Reload(s, disk), {}, now);
    hide Analyze, ListOf, AdvertisedTools, Reload, Rebuild, Unblocked;
  }

  /** The entry of the tool `a`, and of its neighbour under another name. */
  function FirstEntry(): Entry {
    NewEntry(Fingerprint(PaddedTool(0)), PaddedTool(0), 0)
  }

  lemma FirstEntryIsAuthentic()
    ensures PaddedName(0) == "a" && Authentic("a", FirstEntry()) && ByteLen("a") == 1
  {
    PaddedToolFacts(0);
    LetterA();
    hide Fingerprint, ByteLen;
    assert Spaces(0) + "a" == "a";
  }

  lemma FirstEntryIsSmall()
    ensures SmallEntry(FirstEntry())
  {
    PaddedToolFacts(0);
    PaddedToolIsSmall();
    hide Fingerprint, PaddedTool, Pretty, RawName, TrimmedName, Get;
    assert Description(PaddedTool(0)) == "" by { hide *; DescriptionOf(PaddedTool(0)); }
  }

  lemma DescriptionOf(tool: Value)
    requires Get(tool, "description") == None
    ensures Description(tool) == ""
  {
  }

  lemma PaddedToolIsSmall()
    ensures |Pretty(PaddedTool(0), 3)| <= 1_000
  {
    FirstEntryIsAuthentic();
    hide Pretty, PaddedName;
    SchemaToolIsSmall("a");
  }

  lemma SchemaToolIsSmall(name: string)
    requires |name| <= 2
    ensures |Pretty(Obj([Member("name", Str(name)), Member("inputSchema", Obj([]))]), 3)| <= 1_000
  {
    TextAtMost(name, 4);
    MembersAtMost([], 4, 0);
    hide Pretty;
    var members := [Member("name", Str(name)), Member("inputSchema", Obj([]))];
    assert |members| == 2 && members[0].value == Str(name) && members[1].value == Obj([]);
    MembersAtMost(members, 3, 200);
  }

  function FileOf(trusted: bool): BaselineFile {
    if trusted then BaselineFile(map["a" := FirstEntry()], map[], {}) else BaselineFile(map[], map["a" := FirstEntry()], {"a"})
  }

  lemma FileLoads(trusted: bool)
    ensures Loads(FileOf(trusted))
  {
    FirstEntryIsAuthentic();
    FirstEntryIsSmall();
    hide FirstEntry, Authentic, ByteLen, SmallEntry, FileBytes;
    var f := FileOf(trusted);
    assert |f.tools| <= 1 && |f.pending| <= 1 && |f.revoked| <= 1;
    SmallFile(f);
  }

  /** A proxy registers `a`. */
  lemma RegisteredByProxy(p: Policy) returns (w: World)
    requires Plain(p)
    ensures w == Next(Next(NOTHING, StartProxy(0)), ToolsList(0, p, Some(ListOf([PaddedTool(0)])), {}, true, 0, 0))
    ensures w.disk == Some(DiskText(FileOf(true), 0)) && w.operators == map[]
    ensures w.proxies == map[0 := Trust(FileOf(true).tools, map[], {}, false, {}, Some(DiskText(FileOf(true), 0)))]
  {
    var list := ToolsList(0, p, Some(ListOf([PaddedTool(0)])), {}, true, 0, 0);
    StartsEmpty();
    FirstRegistration();
    PaddedToolIsFine(0);
    PlainExchange(p, PaddedTool(0), EMPTY_TRUST, None, true, 0, 0);
    hide *;
    var w1 := Next(NOTHING, StartProxy(0));
    NextExchange(w1, list, AnalyzeToolsList(p, list.result, EMPTY_TRUST, None, {}, true, 0, 0));
    w := Next(w1, list);
  }

  /** What an exchange that was analysed makes of the world. */
  lemma NextExchange(w: World, s: Step, x: Exchange)
    requires s.ToolsList? && s.pid in w.proxies && x.Analyzed?
    requires x == AnalyzeToolsList(s.p, s.result, w.proxies[s.pid], w.disk, s.fails, s.writeOk, s.spelling, s.now)
    ensures var n := Next(w, s);
            n.disk == x.disk && n.proxies == w.proxies[s.pid := x.store] && n.operators == w.operators
  {
    hide AnalyzeToolsList;
  }

  lemma StartsEmpty()
    ensures Next(NOTHING, StartProxy(0)) == World(None, map[0 := EMPTY_TRUST], map[], {})
  {
  }

  lemma FirstRegistration()
    ensures PaddedName(0) == "a" && Reload(EMPTY_TRUST, None) == EMPTY_TRUST
    ensures Saved(Check(EMPTY_TRUST, "a", Fingerprint(PaddedTool(0)), PaddedTool(0), 0), 0)
            == Trust(FileOf(true).tools, map[], {}, false, {}, Some(DiskText(FileOf(true), 0)))
  {
    FirstEntryIsAuthentic();
    hide PaddedTool, Fingerprint, Authentic, ByteLen, NewEntry, Spaces;
    var t := Check(EMPTY_TRUST, "a", Fingerprint(PaddedTool(0)), PaddedTool(0), 0);
    assert t.tools == FileOf(true).tools;
    assert t.File() == FileOf(true);
  }

  /** An operator's command, loaded and run with nothing in between, turns the one file into the other. */
  lemma OperatorTurns(w: World, op: nat, trusted: bool, spelling: nat, now: nat)
    requires w.disk == Some(DiskText(FileOf(trusted), spelling)) && w.operators == map[]
    ensures var c := if trusted then RevokeTool("a") else ApproveTool("a");
            var w' := Next(Next(w, LoadOperator(op)), RunOperator(op, c, true, now));
            w'.disk == Some(DiskText(FileOf(!trusted), now)) && w'.operators == map[] && w'.proxies == w.proxies
  {
    FileLoads(trusted);
    hide Loads, FirstEntry;
    var s := Load(w.disk).value;
    var c := if trusted then RevokeTool("a") else ApproveTool("a");
    assert Commanded(s, c).File() == FileOf(!trusted);
  }

  /** A proxy registers `a`; an operator revokes it. */
  lemma RevokedByOperator(p: Policy) returns (w: World)
    requires Plain(p)
    ensures w == Run(NOTHING, [StartProxy(0), ToolsList(0, p, Some(ListOf([PaddedTool(0)])), {}, true, 0, 0),
                               LoadOperator(1), RunOperator(1, RevokeTool("a"), true, 1)])
    ensures w.disk == Some(DiskText(FileOf(false), 1)) && w.operators == map[]
    ensures w.proxies == map[0 := Trust(FileOf(true).tools, map[], {}, false, {}, Some(DiskText(FileOf(true), 0)))]
  {
    hide Next, FileOf, ListOf, PaddedTool, Run;
    var list := ToolsList(0, p, Some(ListOf([PaddedTool(0)])), {}, true, 0, 0);
    var w2 := RegisteredByProxy(p);
    OperatorTurns(w2, 1, true, 0, 1);
    w := Next(Next(w2, LoadOperator(1)), RunOperator(1, RevokeTool("a"), true, 1));
    RunOfFour(NOTHING, StartProxy(0), list, LoadOperator(1), RunOperator(1, RevokeTool("a"), true, 1));
  }

  lemma RunOfFour(w: World, a: Step, b: Step, c: Step, d: Step)
    ensures Run(w, [a, b, c, d]) == Next(Next(Next(Next(w, a), b), c), d)
  {
    hide Next;
    assert [a, b, c, d][1..] == [b, c, d] && [b, c, d][1..] == [c, d] && [c, d][1..] == [d] && [d][1..] == [];
    assert Run(Next(Next(Next(w, a), b), c), [d]) == Next(Next(Next(Next(w, a), b), c), d);
    assert Run(Next(Next(w, a), b), [c, d]) == Run(Next(Next(Next(w, a), b), c), [d]);
    assert Run(Next(w, a), [b, c, d]) == Run(Next(Next(w, a), b), [c, d]);
  }

  /** That proxy registers another tool and cannot save. */
  lemma UnsavedRegistration(p: Policy, w: World)
    requires Plain(p) && w.disk == Some(DiskText(FileOf(false), 1)) && w.operators == map[]
    requires w.proxies == map[0 := Trust(FileOf(true).tools, map[], {}, false, {}, Some(DiskText(FileOf(true), 0)))]
    ensures var w' := Next(w, ToolsList(0, p, Some(ListOf([PaddedTool(1)])), {}, false, 2, 0));
            && w'.disk == w.disk && w'.operators == map[] && 0 in w'.proxies
            && w'.proxies[0].dirty && "a" in w'.proxies[0].revoked
  {
    SecondRegistration();
    PaddedToolIsFine(1);
    hide FileOf, Check, Reload, Loads, PaddedTool, Fingerprint, AnalyzeToolsList, ListOf, PaddedName, NameOf, Defects, Next;
    PlainExchange(p, PaddedTool(1), w.proxies[0], w.disk, false, 2, 0);
    var list := ToolsList(0, p, Some(ListOf([PaddedTool(1)])), {}, false, 2, 0);
    NextExchange(w, list, AnalyzeToolsList(p, list.result, w.proxies[0], w.disk, {}, false, 2, 0));
  }

  lemma SecondRegistration()
    ensures var s := Trust(FileOf(true).tools, map[], {}, false, {}, Some(DiskText(FileOf(true), 0)));
            var t := Reload(s, Some(DiskText(FileOf(false), 1)));
            var u := Check(t, PaddedName(1), Fingerprint(PaddedTool(1)), PaddedTool(1), 0);
            && PaddedName(1) !in t.tools && PaddedName(1) !in t.revoked
            && u.dirty && "a" in u.revoked
  {
    FileLoads(false);
    PaddedIsNot();
    hide Loads, PaddedTool, PaddedName, Fingerprint, FirstEntry, NewEntry;
  }

  lemma PaddedIsNot()
    ensures PaddedName(1) != "a"
  {
    SpacesUnfold(1);
    hide Spaces;
    assert PaddedName(1)[0] == ' ';
  }

  /** Then an operator approves `a`. */
  lemma ApprovedByOperator(p: Policy, w: World) returns (w': World)
    requires Plain(p) && w.disk == Some(DiskText(FileOf(false), 1)) && w.operators == map[]
    requires w.proxies == map[0 := Trust(FileOf(true).tools, map[], {}, false, {}, Some(DiskText(FileOf(true), 0)))]
    ensures w' == Next(Next(Next(w, ToolsList(0, p, Some(ListOf([PaddedTool(1)])), {}, false, 2, 0)), LoadOperator(2)),
                       RunOperator(2, ApproveTool("a"), true, 3))
    ensures w'.disk == Some(DiskText(FileOf(true), 3)) && 0 in w'.proxies
    ensures w'.proxies[0].dirty && "a" in w'.proxies[0].revoked
  {
    hide Next, FileOf, ListOf, PaddedTool;
    UnsavedRegistration(p, w);
    var w1 := Next(w, ToolsList(0, p, Some(ListOf([PaddedTool(1)])), {}, false, 2, 0));
    OperatorTurns(w1, 2, false, 1, 3);
    w' := Next(Next(w1, LoadOperator(2)), RunOperator(2, ApproveTool("a"), true, 3));
  }

  /** Its next exchange, about no tool at all, puts the revocation back that the approval had lifted. */
  lemma UnsavedRevocationReturns(p: Policy) returns (approved: World)
    requires Plain(p)
    ensures approved == Run(Run(NOTHING, [StartProxy(0), ToolsList(0, p, Some(ListOf([PaddedTool(0)])), {}, true, 0, 0),
                                          LoadOperator(1), RunOperator(1, RevokeTool("a"), true, 1)]),
                            [ToolsList(0, p, Some(ListOf([PaddedTool(1)])), {}, false, 2, 0), LoadOperator(2),
                             RunOperator(2, ApproveTool("a"), true, 3)])
    ensures !RevokedOnDisk(approved, "a") && "a" in OnDisk(approved.disk)
    ensures RevokedOnDisk(Next(approved, ToolsList(0, p, Some(ListOf([])), {}, true, 4, 0)), "a")
  {
    var first := [StartProxy(0), ToolsList(0, p, Some(ListOf([PaddedTool(0)])), {}, true, 0, 0),
                  LoadOperator(1), RunOperator(1, RevokeTool("a"), true, 1)];
    var more := [ToolsList(0, p, Some(ListOf([PaddedTool(1)])), {}, false, 2, 0), LoadOperator(2),
                 RunOperator(2, ApproveTool("a"), true, 3)];
    NothingIsSound();
    hide Inv, ListOf, PaddedTool, AnalyzeToolsList, FirstEntry, AfterToolsList, AfterOperator, Loads, Next, Run;
    var w := RevokedByOperator(p);
    approved := ApprovedByOperator(p, w);
    RunOfThree(w, more[0], more[1], more[2]);
    RunKeeps(NOTHING, first);
    RunKeeps(w, more);
    PutsBack(p, approved);
  }

  lemma NothingIsSound()
    ensures Inv(NOTHING)
  {
  }

  lemma PutsBack(p: Policy, w: World)
    requires Plain(p) && Inv(w) && w.disk == Some(DiskText(FileOf(true), 3)) && 0 in w.proxies
    requires w.proxies[0].dirty && "a" in w.proxies[0].revoked
    ensures RevokedOnDisk(Next(w, ToolsList(0, p, Some(ListOf([])), {}, true, 4, 0)), "a")
  {
    FileLoads(true);
    hide Inv, ListOf, AnalyzeToolsList, FirstEntry, AfterToolsList, Loads;
    EmptyExchange(p, w.proxies[0], w.disk, true, 4, 0);
    ExchangeRevocations(w, ToolsList(0, p, Some(ListOf([])), {}, true, 4, 0), "a");
  }

  lemma RunOfThree(w: World, a: Step, b: Step, c: Step)
    ensures Run(w, [a, b, c]) == Next(Next(Next(w, a), b), c)
  {
    hide Next;
    assert [a, b, c][1..] == [b, c] && [b, c][1..] == [c] && [c][1..] == [];
    assert Run(Next(Next(w, a), b), [c]) == Next(Next(Next(w, a), b), c);
    assert Run(Next(w, a), [b, c]) == Run(Next(Next(w, a), b), [c]);
  }
}
