/** What an operator's decision leaves on disk, how long it stays there, and what it means for the agent. */
module TrustApproval {
  import opened Wrappers
  import opened Json
  import opened Baseline
  import opened Enforcement
  import opened Vouching
  import opened EnforcementRules
  import opened TrustRuns

  /** An operator command that loads the file, takes the lock before anyone else writes, and saves. */
  ghost function Decided(w: World, op: nat, c: Command, spelling: nat): World {
    Next(Next(w, LoadOperator(op)), RunOperator(op, c, true, spelling))
  }

  /** Approving a tool that waits, revoked or not, leaves exactly that entry trusted under its name, no longer waiting
      and no longer revoked, and every other name as it was. */
  lemma ApprovalTrustsTheParkedTool(w: World, op: nat, name: string, spelling: nat)
    requires w.disk.Some? && Loads(w.disk.value.file) && name in w.disk.value.file.pending
    ensures var f, w' := w.disk.value.file, Decided(w, op, ApproveTool(name), spelling);
            && w'.disk == Some(DiskText(BaselineFile(f.tools[name := f.pending[name]], f.pending - {name}, f.revoked - {name}), spelling))
            && w'.proxies == w.proxies && w'.operators == w.operators - {op}
  {
    hide Loads;
  }

  /** Revoking a trusted one takes it out, marks the name, and lets its entry wait unless another already does. */
  lemma RevocationParksTheTrustedTool(w: World, op: nat, name: string, spelling: nat)
    requires w.disk.Some? && Loads(w.disk.value.file) && name in w.disk.value.file.tools
    ensures var f, w' := w.disk.value.file, Decided(w, op, RevokeTool(name), spelling);
            && w'.disk == Some(DiskText(BaselineFile(f.tools - {name},
                                                     f.pending[name := if name in f.pending then f.pending[name] else f.tools[name]],
                                                     f.revoked + {name}), spelling))
            && w'.proxies == w.proxies && w'.operators == w.operators - {op}
  {
    hide Loads;
    var f := w.disk.value.file;
    assert name in f.pending ==> f.pending[name := f.pending[name]] == f.pending;
  }

  /** A command about a name that the file does not hold for it leaves the file alone, as does one that meets a file
      that does not load. */
  lemma NothingToDecide(w: World, op: nat, c: Command, spelling: nat)
    requires w.disk.Some? && op !in w.operators
    requires var f := w.disk.value.file;
             !Loads(f) || (if c.ApproveTool? then c.name !in f.pending else c.name !in f.tools)
    ensures Decided(w, op, c, spelling).disk == w.disk
  {
    hide Loads;
  }

  function Moved(f: BaselineFile, name: string): BaselineFile
    requires name in f.pending
  {
    BaselineFile(f.tools[name := f.pending[name]], f.pending - {name}, f.revoked - {name})
  }

  lemma MovedIsAuthentic(f: BaselineFile, name: string)
    requires name in f.pending && AllAuthentic(f.tools) && AllAuthentic(f.pending)
    ensures AllAuthentic(Moved(f, name).tools) && AllAuthentic(Moved(f, name).pending)
  {
    hide Authentic;
  }

  lemma MovedIsInBounds(f: BaselineFile, name: string)
    requires name in f.pending && NamesInBounds(f.tools) && NamesInBounds(f.pending)
    ensures NamesInBounds(Moved(f, name).tools) && NamesInBounds(Moved(f, name).pending)
  {
  }

  lemma MovedCounts(f: BaselineFile, name: string)
    requires name in f.pending
    ensures |Moved(f, name).tools| == |f.tools.Keys + {name}|
    ensures |Moved(f, name).pending| <= |f.pending| && |Moved(f, name).revoked| <= |f.revoked|
  {
    var f' := Moved(f, name);
    assert f'.tools.Keys == f.tools.Keys + {name};
    assert f'.pending.Keys == f.pending.Keys - {name};
    Fewer(f.pending.Keys, {name});
    Fewer(f.revoked, {name});
    KeysCount(f'.tools);
    KeysCount(f'.pending);
    KeysCount(f.pending);
  }

  lemma MovedLoads(f: BaselineFile, name: string)
    requires Loads(f) && name in f.pending
    ensures Loads(Moved(f, name))
            <==> FileBytes(Moved(f, name)) <= MAX_BASELINE_BYTES && |f.tools.Keys + {name}| <= MAX_BASELINE_TOOLS
  {
    MovedIsAuthentic(f, name);
    MovedIsInBounds(f, name);
    MovedCounts(f, name);
    hide FileBytes, AllAuthentic, NamesInBounds, Moved;
  }

  /** The file that an approval writes is authentic whatever was approved, so it loads exactly when the move has not
      taken it past a limit. */
  lemma ApprovedFileLoads(w: World, op: nat, name: string, spelling: nat)
    requires w.disk.Some? && Loads(w.disk.value.file) && name in w.disk.value.file.pending
    ensures var f, disk := w.disk.value.file, Decided(w, op, ApproveTool(name), spelling).disk;
            && disk.Some?
            && (Loads(disk.value.file)
                <==> FileBytes(disk.value.file) <= 16 * 1024 * 1024 && |f.tools.Keys + {name}| <= 10_000)
  {
    ApprovalTrustsTheParkedTool(w, op, name, spelling);
    MovedLoads(w.disk.value.file, name);
    hide Loads, Decided, FileBytes;
  }

  lemma KeysCount(m: map<string, Entry>)
    ensures |m| == |m.Keys|
  {
  }

  lemma Fewer(a: set<string>, b: set<string>)
    ensures |a - b| <= |a|
  {
    assert a == (a - b) + (a * b);
  }

  // ----- trust stays ------------------------------------------------------------------------------------------------

  ghost predicate TrustedOnDisk(w: World, name: string, e: Entry) {
    w.disk.Some? && name in w.disk.value.file.tools && w.disk.value.file.tools[name] == e
  }

  /** The step neither decides on the name nor deletes the file; reloads succeed, and no other write fell between an
      operator command's load and its lock. */
  ghost predicate Settled(w: World, s: Step, name: string) {
    && !s.DeleteFile?
    && (s.RunOperator? ==> s.command.name != name)
    && (s.ToolsList? ==> Reloads(w.disk))
    && (s.RunOperator? && s.op in w.operators ==> w.operators[s.op].digest == w.disk)
  }

  ghost predicate AllSettled(w: World, steps: seq<Step>, name: string)
    decreases |steps|
  {
    steps == [] || (Settled(w, steps[0], name) && AllSettled(Next(w, steps[0]), steps[1..], name))
  }

  lemma SettledStep(w: World, s: Step, name: string, e: Entry)
    requires Inv(w) && TrustedOnDisk(w, name, e) && Settled(w, s, name)
    ensures TrustedOnDisk(Next(w, s), name, e)
  {
    match s {
      case ToolsList(pid, _, _, _, _, _, _) =>
        if pid in w.proxies { ExchangeKeepsDisk(w, s); }
        hide AfterToolsList;
      case RunOperator(op, c, writeOk, spelling) =>
        if op in w.operators {
          assert StoreInv(w.everTrusted, w.operators[op]);
          hide AllAuthentic;
          assert name in w.operators[op].tools && w.operators[op].tools[name] == e;
        }
      case _ =>
    }
  }

  /** Trust is as sticky as a revocation is: what proxies register, park or withhold, and what operators decide on
      other names, leaves the entry on disk as it is. */
  lemma {:induction false} TrustIsSticky(w: World, steps: seq<Step>, name: string, e: Entry)
    requires Inv(w) && TrustedOnDisk(w, name, e) && AllSettled(w, steps, name)
    ensures Inv(Run(w, steps)) && TrustedOnDisk(Run(w, steps), name, e)
    decreases |steps|
  {
    hide Next, Inv, Settled, TrustedOnDisk;
    if steps != [] {
      NextKeeps(w, steps[0]);
      SettledStep(w, steps[0], name, e);
      TrustIsSticky(Next(w, steps[0]), steps[1..], name, e);
    }
  }

  // ----- and reaches the agent ----------------------------------------------------------------------------------

  /** What is trusted on disk is known to every proxy that reloads, as it is on disk. */
  lemma DiskIsKnown(s: Trust, disk: Option<DiskText>, name: string)
    requires Sound(s) && Reloads(disk) && disk.Some? && name in disk.value.file.tools
    ensures var start := Reload(s, disk);
            start.Contains(name) && start.tools[name] == disk.value.file.tools[name]
  {
    ReloadSound(s, disk);
    ReloadCatchesUp(s, disk);
    hide Reload, AllAuthentic, GuessesTracked, InSync, Loads;
  }

  lemma TrustedTool(s: Trust, name: string)
    requires Sound(s) && name in s.tools
    ensures NameOf(s.tools[name].tool) == name && s.tools[name].hash == Fingerprint(s.tools[name].tool)
  {
    assert Authentic(name, s.tools[name]);
    hide Fingerprint, RawName, InStep, GuessesTracked, InSync;
  }

  /** The exchange advertises the tool at a place where it is proper, under a policy that has nothing against it, through
      a proxy that reloads; and the name is revoked neither on disk nor in what the proxy has not saved. */
  ghost predicate Offers(w: World, s: Step, i: nat, name: string, tool: Value) {
    && s.ToolsList? && s.pid in w.proxies && s.result.Some? && ExchangeOf(w, s).Analyzed?
    && i < |AdvertisedTools(s.result).value| && AdvertisedTools(s.result).value[i] == tool
    && Proper(AdvertisedTools(s.result).value, i)
    && name !in s.p.secret && !s.p.suspicious(Description(tool))
    && Reloads(w.disk) && !RevokedOnDisk(w, name)
    && !(w.proxies[s.pid].dirty && name in w.proxies[s.pid].revoked)
  }

  /** The agent's list has the tool, and no event says that it was withheld. */
  ghost predicate HandsOut(w: World, s: Step, i: nat, tool: Value) {
    && s.ToolsList? && s.pid in w.proxies && s.result.Some? && ExchangeOf(w, s).Analyzed?
    && (exists list :: Get(Received(s.result.value, ExchangeOf(w, s)), "tools") == Some(Arr(list)) && tool in list)
    && forall e :: e in ExchangeOf(w, s).events && e.index == i ==> !e.action.Withholds()
  }

  /** A tool trusted on disk and advertised as it was trusted reaches the agent. */
  lemma TrustedOnDiskIsHandedOut(w: World, s: Step, name: string, e: Entry, i: nat)
    requires Inv(w) && TrustedOnDisk(w, name, e) && Offers(w, s, i, name, e.tool)
    ensures HandsOut(w, s, i, e.tool)
  {
    var mine := w.proxies[s.pid];
    assert StoreInv(w.everTrusted, mine);
    hide Inv, AnalyzeToolsList, AdvertisedTools, Received, Sound, Proper, Loads, Description, Fingerprint, NameOf, Reload;
    DiskIsKnown(mine, w.disk, name);
    ReloadSound(mine, w.disk);
    TrustedTool(Reload(mine, w.disk), name);
    ReloadedRevocations(mine, w.disk, name);
    var list := TrustedToolIsHandedOut(s.p, s.result.value, mine, w.disk, s.fails, s.writeOk, s.spelling, s.now, i);
  }

  /** From the approval to the agent: an operator approves a tool that waits; other steps follow; and any exchange that
      then offers the tool as it was parked hands it out. */
  lemma ApprovedToolIsHandedOut(w: World, op: nat, name: string, spelling: nat, steps: seq<Step>, s: Step, i: nat)
    requires Inv(w) && w.disk.Some? && Loads(w.disk.value.file) && name in w.disk.value.file.pending
    requires AllSettled(Decided(w, op, ApproveTool(name), spelling), steps, name)
    requires Offers(Run(Decided(w, op, ApproveTool(name), spelling), steps), s, i, name, w.disk.value.file.pending[name].tool)
    ensures HandsOut(Run(Decided(w, op, ApproveTool(name), spelling), steps), s, i, w.disk.value.file.pending[name].tool)
  {
    hide *;
    var w', e := Decided(w, op, ApproveTool(name), spelling), w.disk.value.file.pending[name];
    ApprovalIsOnDisk(w, op, name, spelling);
    TrustIsSticky(w', steps, name, e);
    TrustedOnDiskIsHandedOut(Run(w', steps), s, name, e, i);
  }

  lemma ApprovalIsOnDisk(w: World, op: nat, name: string, spelling: nat)
    requires Inv(w) && w.disk.Some? && Loads(w.disk.value.file) && name in w.disk.value.file.pending
    ensures var w' := Decided(w, op, ApproveTool(name), spelling);
            Inv(w') && TrustedOnDisk(w', name, w.disk.value.file.pending[name])
  {
    ApprovalTrustsTheParkedTool(w, op, name, spelling);
    NextKeeps(w, LoadOperator(op));
    NextKeeps(Next(w, LoadOperator(op)), RunOperator(op, ApproveTool(name), true, spelling));
    hide Next, Inv, Loads;
  }

  // ----- what a proxy could not save before -----------------------------------------------------------------------

  lemma UnsavedSurvivesReload(s: Trust, disk: DiskText, name: string)
    requires s.dirty && Loads(disk.file)
    ensures var start := Reload(s, Some(disk));
            && start.dirty
            && (name in s.tools && (name in disk.file.tools ==> s.tools[name] == disk.file.tools[name])
                ==> name in start.tools && start.tools[name] == s.tools[name])
            && (name in s.pending && name !in s.tools && name !in disk.file.tools && name !in disk.file.pending
                ==> name in start.pending && start.pending[name] == s.pending[name])
            && (name in disk.file.pending && s.digest != Some(disk)
                ==> name in start.pending && start.pending[name] == disk.file.pending[name])
  {
    hide Loads;
  }

  /** A proxy with unsaved work that meets a changed file loses none of it at its next save, and undoes none of the
      others': a name it registered is on disk with its entry unless the file trusted it already, a tool it parked
      waits there unless the file trusts the name or has one waiting, and what waited in the file still does. */
  lemma UnsavedWorkReachesTheDisk(w: World, s: Step, name: string)
    requires Inv(w) && s.ToolsList? && s.pid in w.proxies && w.disk.Some? && Reloads(w.disk)
    requires ExchangeOf(w, s).Analyzed? && s.writeOk && w.proxies[s.pid].dirty
    ensures var mine, f, disk := w.proxies[s.pid], w.disk.value.file, AfterToolsList(w, s).disk;
            && disk.Some?
            && (name in mine.tools && name !in f.tools ==> TrustedOnDisk(AfterToolsList(w, s), name, mine.tools[name]))
            && (name in mine.pending && name !in mine.tools && name !in f.tools && name !in f.pending
                ==> name in disk.value.file.pending && disk.value.file.pending[name] == mine.pending[name])
            && (name in f.pending && mine.digest != w.disk
                ==> name in disk.value.file.pending && disk.value.file.pending[name] == f.pending[name])
  {
    var mine := w.proxies[s.pid];
    assert StoreInv(w.everTrusted, mine);
    var start, tools := Reload(mine, w.disk), AdvertisedTools(s.result).value;
    ReloadSound(mine, w.disk);
    UnsavedSurvivesReload(mine, w.disk.value, name);
    AnalyzeDelivers(s.p, tools, |tools|, start, s.fails, s.now);
    AnalyzeStaysDirty(s.p, tools, |tools|, start, s.fails, s.now);
    hide Inv, Analyze, Reload, AdvertisedTools, Emit, Rebuild, Unblocked, Sound, Loads;
    var g := Analyze(s.p, tools, |tools|, start, s.fails, s.now);
    assert Grows(start, g.store) && g.store.dirty;
    assert AfterToolsList(w, s).disk == Saved(g.store, s.spelling).digest;
  }
}
