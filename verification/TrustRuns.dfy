/** Many proxies and the operator's commands over one baseline file (fingerprint.rs, main.rs, proxy.rs).

    A proxy exchange holds the lock from reload to save, so it is one step. An operator command loads
    the file before it takes the lock, so it is two. */
module TrustRuns {
  import opened Wrappers
  import opened Json
  import opened Baseline
  import opened Enforcement
  import opened Vouching
  import opened ExchangeFacts

  datatype Command = ApproveTool(name: string) | RevokeTool(name: string)

  datatype Step =
    | StartProxy(pid: nat)
    | StopProxy(pid: nat)
    | ToolsList(pid: nat, p: Policy, result: Option<Value>, fails: set<nat>, writeOk: bool, spelling: nat, now: nat)
    | LoadOperator(op: nat)
    | RunOperator(op: nat, command: Command, writeOk: bool, spelling: nat)
    | DeleteFile

  /** The file, each proxy's store, each operator command that has loaded, and the names that have ever
      had a trusted entry on disk. */
  datatype World = World(disk: Option<DiskText>, proxies: map<nat, Trust>, operators: map<nat, Trust>, everTrusted: set<string>)

  const NOTHING := World(None, map[], map[], {})

  function OnDisk(disk: Option<DiskText>): set<string> {
    if disk.Some? then disk.value.file.tools.Keys else {}
  }

  function Written(w: World, disk: Option<DiskText>): World {
    w.(disk := disk, everTrusted := w.everTrusted + OnDisk(disk))
  }

  ghost function ExchangeOf(w: World, s: Step): Exchange
    requires s.ToolsList? && s.pid in w.proxies
  {
    AnalyzeToolsList(s.p, s.result, w.proxies[s.pid], w.disk, s.fails, s.writeOk, s.spelling, s.now)
  }

  ghost function AfterToolsList(w: World, s: Step): World
    requires s.ToolsList? && s.pid in w.proxies
  {
    match ExchangeOf(w, s)
    case Malformed => w
    case Failed(store, _) => w.(proxies := w.proxies[s.pid := store])
    case Analyzed(store, disk, _, _) => Written(w, disk).(proxies := w.proxies[s.pid := store])
  }

  function Commanded(s: Trust, c: Command): Trust {
    match c
    case ApproveTool(name) => Approve(s, name)
    case RevokeTool(name) => Revoke(s, name)
  }

  /** A command that finds nothing to do ends without writing. */
  ghost function AfterOperator(w: World, op: nat, c: Command, writeOk: bool, spelling: nat): World
    requires op in w.operators
  {
    var s := w.operators[op];
    var w' := w.(operators := w.operators - {op});
    if Commanded(s, c) == s || !writeOk then w' else Written(w', Saved(Commanded(s, c), spelling).digest)
  }

  ghost function Next(w: World, s: Step): World {
    match s
    case StartProxy(pid) => if Load(w.disk).Ok? then w.(proxies := w.proxies[pid := Load(w.disk).value]) else w
    case StopProxy(pid) => w.(proxies := w.proxies - {pid})
    case ToolsList(pid, _, _, _, _, _, _) => if pid in w.proxies then AfterToolsList(w, s) else w
    case LoadOperator(op) => if Load(w.disk).Ok? then w.(operators := w.operators[op := Load(w.disk).value]) else w
    case RunOperator(op, c, writeOk, spelling) =>
      if op in w.operators then AfterOperator(w, op, c, writeOk, spelling) else w
    case DeleteFile => w.(disk := None)
  }

  ghost function Run(w: World, steps: seq<Step>): World
    decreases |steps|
  {
    if steps == [] then w else Run(Next(w, steps[0]), steps[1..])
  }

  // ----- invariants of every run ------------------------------------------------------------------------------

  ghost predicate StoreInv(everTrusted: set<string>, s: Trust) {
    && Sound(s)
    && (forall name :: s.Contains(name) ==> name in everTrusted)
  }

  ghost predicate Inv(w: World) {
    && OnDisk(w.disk) <= w.everTrusted
    && (forall pid :: pid in w.proxies ==> StoreInv(w.everTrusted, w.proxies[pid]))
    && (forall op :: op in w.operators ==> StoreInv(w.everTrusted, w.operators[op]))
  }

  lemma StoreInvGrows(a: set<string>, b: set<string>, s: Trust)
    requires StoreInv(a, s) && a <= b
    ensures StoreInv(b, s)
  {
    hide Sound;
  }

  lemma LoadInv(w: World)
    requires Inv(w) && Load(w.disk).Ok?
    ensures StoreInv(w.everTrusted, Load(w.disk).value)
  {
    LoadSound(w.disk);
    hide Sound, Loads;
  }

  lemma ReloadInv(everTrusted: set<string>, s: Trust, disk: Option<DiskText>)
    requires StoreInv(everTrusted, s) && OnDisk(disk) <= everTrusted
    ensures StoreInv(everTrusted, Reload(s, disk))
  {
    ReloadSound(s, disk);
    hide Sound, Loads;
  }

  /** Within an exchange, a registration is never counted as trust before it is saved. */
  lemma DecideContains(p: Policy, index: nat, tool: Value, defect: Defect, s: Trust, now: nat, name: string)
    requires Decide(p, index, tool, defect, s, now).store.Contains(name)
    ensures s.Contains(name)
  {
    hide RawName, Fingerprint, Description, NameOf;
  }

  lemma {:induction false} AnalyzeContains(p: Policy, tools: seq<Value>, n: nat, s: Trust, fails: set<nat>, now: nat, name: string)
    requires n <= |tools| && Analyze(p, tools, n, s, fails, now).store.Contains(name)
    ensures s.Contains(name)
  {
    hide Analyze, Decide, Defects, Trust.Contains;
    AnalyzeStart(p, tools, s, fails, now);
    if n > 0 {
      AnalyzeStore(p, tools, n, s, fails, now);
      var g := Analyze(p, tools, n - 1, s, fails, now);
      if !g.store.Contains(name) {
        DecideContains(p, n - 1, tools[n - 1], Defects(tools)[n - 1], g.store, now, name);
      }
      AnalyzeContains(p, tools, n - 1, s, fails, now, name);
    }
  }

  lemma ToolsListKeeps(w: World, s: Step)
    requires Inv(w) && s.ToolsList? && s.pid in w.proxies
    ensures Inv(AfterToolsList(w, s))
  {
    var s0, s1 := w.proxies[s.pid], Reload(w.proxies[s.pid], w.disk);
    ReloadInv(w.everTrusted, s0, w.disk);
    var tools := AdvertisedTools(s.result);
    if tools.Some? {
      var g := Analyze(s.p, tools.value, |tools.value|, s1, s.fails, s.now);
      AnalyzeDelivers(s.p, tools.value, |tools.value|, s1, s.fails, s.now);
      forall name | g.store.Contains(name) ensures name in w.everTrusted {
        AnalyzeContains(s.p, tools.value, |tools.value|, s1, s.fails, s.now, name);
      }
      SavedSound(g.store, s.spelling);
      hide Analyze, Reload, Sound, AdvertisedTools, Emit, Rebuild, Unblocked;
      var w' := AfterToolsList(w, s);
      assert StoreInv(w.everTrusted, g.store);
      assert StoreInv(w'.everTrusted, w'.proxies[s.pid]);
      assert w.everTrusted <= w'.everTrusted;
      OthersKeep(w, w', s.pid);
    }
  }

  lemma OthersKeep(w: World, w': World, pid: nat)
    requires Inv(w) && w.everTrusted <= w'.everTrusted && OnDisk(w'.disk) <= w'.everTrusted
    requires pid in w'.proxies && StoreInv(w'.everTrusted, w'.proxies[pid])
    requires w'.proxies == w.proxies[pid := w'.proxies[pid]] && w'.operators == w.operators
    ensures Inv(w')
  {
    hide StoreInv;
    forall i | i in w'.proxies ensures StoreInv(w'.everTrusted, w'.proxies[i]) {
      if i != pid { StoreInvGrows(w.everTrusted, w'.everTrusted, w.proxies[i]); }
    }
    forall i | i in w'.operators ensures StoreInv(w'.everTrusted, w'.operators[i]) {
      StoreInvGrows(w.everTrusted, w'.everTrusted, w.operators[i]);
    }
  }

  lemma OperatorKeeps(w: World, op: nat, c: Command, writeOk: bool, spelling: nat)
    requires Inv(w) && op in w.operators
    ensures Inv(AfterOperator(w, op, c, writeOk, spelling))
  {
    hide StoreInv, Commanded;
    var w' := AfterOperator(w, op, c, writeOk, spelling);
    forall i | i in w'.proxies ensures StoreInv(w'.everTrusted, w'.proxies[i]) {
      StoreInvGrows(w.everTrusted, w'.everTrusted, w.proxies[i]);
    }
    forall i | i in w'.operators ensures StoreInv(w'.everTrusted, w'.operators[i]) {
      StoreInvGrows(w.everTrusted, w'.everTrusted, w.operators[i]);
    }
  }

  lemma NextKeeps(w: World, s: Step)
    requires Inv(w)
    ensures Inv(Next(w, s))
  {
    hide AfterToolsList, AfterOperator, StoreInv;
    if Load(w.disk).Ok? { LoadInv(w); }
    hide Load;
    match s {
      case ToolsList(pid, _, _, _, _, _, _) => if pid in w.proxies { ToolsListKeeps(w, s); }
      case RunOperator(op, c, writeOk, spelling) => if op in w.operators { OperatorKeeps(w, op, c, writeOk, spelling); }
      case _ =>
    }
  }

  lemma {:induction false} RunKeeps(w: World, steps: seq<Step>)
    requires Inv(w)
    ensures Inv(Run(w, steps))
    decreases |steps|
  {
    hide Inv, Next;
    if steps != [] {
      NextKeeps(w, steps[0]);
      RunKeeps(Next(w, steps[0]), steps[1..]);
    }
  }

  /** In every run, in every proxy: a tool counts as trusted only if an entry for it has been on disk,
      guesses are among the tools, and there are guesses only while something is unsaved. */
  lemma TrustMeansOnDisk(steps: seq<Step>, pid: nat, name: string)
    requires pid in Run(NOTHING, steps).proxies
    ensures var w := Run(NOTHING, steps);
            && (w.proxies[pid].Contains(name) ==> name in w.everTrusted)
            && w.proxies[pid].unpersisted <= w.proxies[pid].tools.Keys
            && (w.proxies[pid].unpersisted != {} ==> w.proxies[pid].dirty)
  {
    assert Inv(NOTHING);
    RunKeeps(NOTHING, steps);
    hide Run;
    assert StoreInv(Run(NOTHING, steps).everTrusted, Run(NOTHING, steps).proxies[pid]);
    hide InStep, AllAuthentic;
  }

  // ----- a proxy never takes trust or a revocation off the disk ---------------------------------------------------

  /** The reload succeeded: the file is absent, or it loads. */
  predicate Reloads(disk: Option<DiskText>) {
    disk.Some? ==> Loads(disk.value.file)
  }

  ghost predicate DiskGrows(a: Option<DiskText>, b: Option<DiskText>) {
    a.Some? ==>
      && b.Some?
      && a.value.file.revoked <= b.value.file.revoked
      && forall name :: name in a.value.file.tools ==>
           name in b.value.file.tools && b.value.file.tools[name] == a.value.file.tools[name]
  }

  lemma ReloadCatchesUp(s: Trust, disk: Option<DiskText>)
    requires Sound(s) && Reloads(disk)
    ensures disk.Some? ==> Reload(s, disk).digest == disk
  {
    hide Sound, Loads;
  }

  lemma InStepGrows(s: Trust, spelling: nat)
    requires InStep(s)
    ensures DiskGrows(s.digest, Saved(s, spelling).digest)
  {
  }

  /** With the lock held and the reload succeeding, an exchange leaves every trusted entry and every
      revocation on disk exactly as it was. */
  lemma ExchangeKeepsDisk(w: World, s: Step)
    requires Inv(w) && s.ToolsList? && s.pid in w.proxies && Reloads(w.disk)
    ensures DiskGrows(w.disk, AfterToolsList(w, s).disk)
  {
    var s0 := w.proxies[s.pid];
    assert StoreInv(w.everTrusted, s0);
    var s1 := Reload(s0, w.disk);
    ReloadSound(s0, w.disk);
    ReloadCatchesUp(s0, w.disk);
    var tools := AdvertisedTools(s.result);
    assert DiskGrows(w.disk, w.disk);
    if tools.Some? {
      var g := Analyze(s.p, tools.value, |tools.value|, s1, s.fails, s.now);
      AnalyzeDelivers(s.p, tools.value, |tools.value|, s1, s.fails, s.now);
      assert InStep(g.store);
      InStepGrows(g.store, s.spelling);
      hide Analyze, Reload, AdvertisedTools, Emit, Rebuild, Unblocked, Sound, Loads, DiskGrows;
      assert w.disk.Some? ==> g.store.digest == w.disk;
      assert DiskGrows(None, AfterToolsList(w, s).disk) by { hide AfterToolsList; NothingGrows(AfterToolsList(w, s).disk); }
    }
  }

  lemma NothingGrows(disk: Option<DiskText>)
    ensures DiskGrows(None, disk)
  {
  }

  ghost predicate RevokedOnDisk(w: World, name: string) {
    w.disk.Some? && name in w.disk.value.file.revoked
  }

  /** What one exchange leaves revoked, in the store and in the file: the file's own revocations, and those an
      unsaved store still holds, which a successful save writes back; a deleted file leaves none. So an approval takes effect in a running proxy
      exactly when that proxy has nothing unsaved under the old revocation. */
  lemma ExchangeRevocations(w: World, s: Step, name: string)
    requires Inv(w) && s.ToolsList? && s.pid in w.proxies && Reloads(w.disk)
    requires ExchangeOf(w, s).Analyzed?
    ensures var x, mine := ExchangeOf(w, s), w.proxies[s.pid];
            var held := w.disk.Some? && mine.dirty && name in mine.revoked;
            && (name in x.store.revoked <==> RevokedOnDisk(w, name) || held)
            && (RevokedOnDisk(AfterToolsList(w, s), name) <==> RevokedOnDisk(w, name) || (s.writeOk && held))
  {
    var s0 := w.proxies[s.pid];
    assert StoreInv(w.everTrusted, s0);
    var s1 := Reload(s0, w.disk);
    ReloadSound(s0, w.disk);
    ReloadedRevocations(s0, w.disk, name);
    var tools := AdvertisedTools(s.result).value;
    AnalyzeDelivers(s.p, tools, |tools|, s1, s.fails, s.now);
    AnalyzeStaysDirty(s.p, tools, |tools|, s1, s.fails, s.now);
    hide Analyze, AdvertisedTools, Emit, Rebuild, Unblocked, Sound, Loads, Untouched, Reload;
  }

  lemma ReloadedRevocations(s: Trust, disk: Option<DiskText>, name: string)
    requires Sound(s) && Reloads(disk)
    ensures name in Reload(s, disk).revoked
            <==> disk.Some? && (name in disk.value.file.revoked || (s.dirty && name in s.revoked))
    ensures s.dirty && disk.Some? ==> Reload(s, disk).dirty
  {
    hide AllAuthentic, GuessesTracked, Loads;
  }

  lemma {:induction false} AnalyzeStaysDirty(p: Policy, tools: seq<Value>, n: nat, s: Trust, fails: set<nat>, now: nat)
    requires n <= |tools|
    ensures s.dirty ==> Analyze(p, tools, n, s, fails, now).store.dirty
  {
    hide Analyze, Decide, Defects;
    AnalyzeStart(p, tools, s, fails, now);
    if n > 0 {
      AnalyzeStaysDirty(p, tools, n - 1, s, fails, now);
      AnalyzeStore(p, tools, n, s, fails, now);
      DecideStaysDirty(p, n - 1, tools[n - 1], Defects(tools)[n - 1], Analyze(p, tools, n - 1, s, fails, now).store, now);
    }
  }

  lemma DecideStaysDirty(p: Policy, index: nat, tool: Value, defect: Defect, s: Trust, now: nat)
    ensures s.dirty ==> Decide(p, index, tool, defect, s, now).store.dirty
  {
    hide RawName, Fingerprint, Description, NameOf;
  }

  // ----- revocation is sticky -----------------------------------------------------------------------------------------

  /** The step neither approves the name nor deletes the file; reloads succeed, and no other write fell
      between an operator command's load and its lock. */
  ghost predicate Sticky(w: World, s: Step, name: string) {
    && !s.DeleteFile?
    && (s.RunOperator? ==> s.command != ApproveTool(name))
    && (s.ToolsList? ==> Reloads(w.disk))
    && (s.RunOperator? && s.op in w.operators ==> w.operators[s.op].digest == w.disk)
  }

  ghost predicate AllSticky(w: World, steps: seq<Step>, name: string)
    decreases |steps|
  {
    steps == [] || (Sticky(w, steps[0], name) && AllSticky(Next(w, steps[0]), steps[1..], name))
  }

  lemma StickyStep(w: World, s: Step, name: string)
    requires Inv(w) && RevokedOnDisk(w, name) && Sticky(w, s, name)
    ensures RevokedOnDisk(Next(w, s), name)
  {
    match s {
      case ToolsList(pid, _, _, _, _, _, _) =>
        if pid in w.proxies { ExchangeKeepsDisk(w, s); }
        hide AfterToolsList;
      case RunOperator(op, c, writeOk, spelling) =>
        if op in w.operators {
          assert StoreInv(w.everTrusted, w.operators[op]);
          assert name in w.operators[op].revoked;
        }
      case _ =>
    }
  }

  /** No analysed list hands the agent a backend tool of that name. */
  ghost predicate WithheldFrom(w: World, s: Step, name: string)
    requires s.ToolsList? && s.pid in w.proxies && s.result.Some? && ExchangeOf(w, s).Analyzed?
  {
    exists places, list ::
      && Get(Received(s.result.value, ExchangeOf(w, s)), "tools") == Some(Arr(list))
      && Lists(s.p, AdvertisedTools(s.result).value, places, ExchangeOf(w, s).store, list)
      && forall k :: 0 <= k < |places| ==> RawName(list[k]) != Some(name)
  }

  lemma RevokedIsWithheld(w: World, s: Step, name: string)
    requires Inv(w) && RevokedOnDisk(w, name) && s.ToolsList? && Reloads(w.disk)
    requires s.pid in w.proxies && s.result.Some? && ExchangeOf(w, s).Analyzed?
    ensures WithheldFrom(w, s, name)
  {
    assert StoreInv(w.everTrusted, w.proxies[s.pid]);
    assert name in ExchangeOf(w, s).store.revoked by {
      ExchangeRevocations(w, s, name);
    }
    var places, list := AnalysedExchange(s.p, s.result.value, w.proxies[s.pid], w.disk, s.fails, s.writeOk, s.spelling, s.now);
    hide AnalyzeToolsList, Received, AdvertisedTools, Sound, RawName, Bound;
    var x := ExchangeOf(w, s);
    forall k | 0 <= k < |places| ensures RawName(list[k]) != Some(name) {
      assert Delivered(s.p, x.store, AdvertisedTools(s.result).value[places[k]], list[k]);
    }
  }

  /** Revocation is sticky: once it is on disk it stays there, and every list analysed by any proxy in
      either mode withholds the tool, until it is approved or the file is deleted. */
  lemma {:induction false} RevocationIsSticky(w: World, steps: seq<Step>, name: string, k: nat)
    requires Inv(w) && RevokedOnDisk(w, name) && AllSticky(w, steps, name) && k < |steps|
    ensures RevokedOnDisk(Run(w, steps), name)
    ensures var s, before := steps[k], Run(w, steps[..k]);
            && RevokedOnDisk(before, name)
            && (s.ToolsList? && s.pid in before.proxies && s.result.Some? && ExchangeOf(before, s).Analyzed?
                ==> WithheldFrom(before, s, name))
    decreases |steps|
  {
    var next := Next(w, steps[0]);
    NextKeeps(w, steps[0]);
    StickyStep(w, steps[0], name);
    if k == 0 {
      assert steps[..0] == [];
      var s := steps[0];
      if s.ToolsList? && s.pid in w.proxies && s.result.Some? && ExchangeOf(w, s).Analyzed? {
        RevokedIsWithheld(w, s, name);
      }
      hide ExchangeOf, Next, Inv, Sticky, RevokedOnDisk, WithheldFrom;
      StickyRun(next, steps[1..], name);
    } else {
      hide ExchangeOf, Next, Inv, Sticky, RevokedOnDisk, WithheldFrom;
      RevocationIsSticky(next, steps[1..], name, k - 1);
      assert steps[..k][1..] == steps[1..][..k - 1];
    }
  }

  lemma {:induction false} StickyRun(w: World, steps: seq<Step>, name: string)
    requires Inv(w) && RevokedOnDisk(w, name) && AllSticky(w, steps, name)
    ensures RevokedOnDisk(Run(w, steps), name)
    decreases |steps|
  {
    hide Next, Inv, Sticky, RevokedOnDisk;
    if steps != [] {
      NextKeeps(w, steps[0]);
      StickyStep(w, steps[0], name);
      StickyRun(Next(w, steps[0]), steps[1..], name);
    }
  }

  // ----- runs in enforce mode -------------------------------------------------------------------------------------------

  /** Every exchange is in enforce mode, under the one sanitizer. */
  ghost predicate Enforcing(s: Step, scan: string -> bool) {
    s.ToolsList? ==> s.p.mode == Enforce && s.p.suspicious == scan
  }

  ghost predicate AllClean(scan: string -> bool, w: World) {
    && (w.disk.Some? ==> CleanEntries(scan, w.disk.value.file.tools) && CleanEntries(scan, w.disk.value.file.pending))
    && (forall pid :: pid in w.proxies ==> Clean(scan, w.proxies[pid]))
    && (forall op :: op in w.operators ==> Clean(scan, w.operators[op]))
  }

  lemma ReloadClean(scan: string -> bool, s: Trust, disk: Option<DiskText>)
    requires Clean(scan, s)
    requires disk.Some? ==> CleanEntries(scan, disk.value.file.tools) && CleanEntries(scan, disk.value.file.pending)
    ensures Clean(scan, Reload(s, disk))
  {
    hide Description, Loads;
  }

  lemma ExchangeClean(scan: string -> bool, w: World, s: Step)
    requires AllClean(scan, w) && s.ToolsList? && s.pid in w.proxies && Enforcing(s, scan)
    ensures var x := ExchangeOf(w, s);
            && (!x.Malformed? ==> Clean(scan, x.store))
            && (x.Analyzed? ==> x.disk == w.disk || x.disk == Some(DiskText(x.store.File(), s.spelling)))
  {
    hide Analyze, Reload, AdvertisedTools, Emit, Rebuild, Unblocked, CleanEntries;
    var s0, s1 := w.proxies[s.pid], Reload(w.proxies[s.pid], w.disk);
    ReloadClean(scan, s0, w.disk);
    var tools := AdvertisedTools(s.result);
    if tools.Some? {
      AnalyzeClean(s.p, tools.value, |tools.value|, s1, s.fails, s.now);
    }
  }

  lemma ToolsListClean(scan: string -> bool, w: World, s: Step)
    requires AllClean(scan, w) && s.ToolsList? && s.pid in w.proxies && Enforcing(s, scan)
    ensures AllClean(scan, AfterToolsList(w, s))
    ensures ExchangeOf(w, s).Analyzed? ==> Clean(scan, ExchangeOf(w, s).store)
  {
    hide AnalyzeToolsList, CleanEntries;
    ExchangeClean(scan, w, s);
  }

  lemma CommandedClean(scan: string -> bool, s: Trust, c: Command)
    requires Clean(scan, s)
    ensures Clean(scan, Commanded(s, c))
  {
    hide Description;
  }

  lemma NextClean(scan: string -> bool, w: World, s: Step)
    requires AllClean(scan, w) && Enforcing(s, scan)
    ensures AllClean(scan, Next(w, s))
  {
    match s {
      case ToolsList(pid, _, _, _, _, _, _) =>
        if pid in w.proxies { ToolsListClean(scan, w, s); }
        hide AfterToolsList, CleanEntries;
      case RunOperator(op, c, writeOk, spelling) =>
        if op in w.operators { CommandedClean(scan, w.operators[op], c); }
        hide Commanded, CleanEntries;
      case _ =>
        hide CleanEntries, Loads, AfterToolsList, AfterOperator;
    }
  }

  lemma {:induction false} RunClean(scan: string -> bool, w: World, steps: seq<Step>)
    requires AllClean(scan, w) && forall s :: s in steps ==> Enforcing(s, scan)
    ensures AllClean(scan, Run(w, steps))
    decreases |steps|
  {
    hide AllClean, Next, Enforcing;
    if steps != [] {
      assert steps[0] in steps && forall s :: s in steps[1..] ==> s in steps;
      NextClean(scan, w, steps[0]);
      RunClean(scan, Next(w, steps[0]), steps[1..]);
    }
  }

  /** In every run from an empty baseline whose exchanges are all in enforce mode, whatever proxies,
      approvals and revocations it mixes: each backend tool that an analysed list hands the agent carries
      the fingerprint trusted for its name and a description the sanitizer passes, and no name is handed
      out twice. */
  lemma EnforcedRunsHandOutTrustedTools(scan: string -> bool, steps: seq<Step>, s: Step)
    returns (places: seq<nat>, list: seq<Value>)
    requires (forall x :: x in steps ==> Enforcing(x, scan)) && Enforcing(s, scan)
    requires var w := Run(NOTHING, steps);
             s.ToolsList? && s.pid in w.proxies && s.result.Some? && ExchangeOf(w, s).Analyzed?
    ensures var x := ExchangeOf(Run(NOTHING, steps), s);
            && Get(Received(s.result.value, x), "tools") == Some(Arr(list))
            && |list| == |places| + |s.p.descriptors|
            && (forall k :: 0 <= k < |places| ==> Bound(x.store, list[k]) && !scan(Description(list[k])))
            && (forall k, l :: 0 <= k < l < |places| ==> RawName(list[k]) != RawName(list[l]))
  {
    var w := Run(NOTHING, steps);
    assert Inv(NOTHING) && AllClean(scan, NOTHING);
    RunKeeps(NOTHING, steps);
    RunClean(scan, NOTHING, steps);
    hide Run;
    assert StoreInv(w.everTrusted, w.proxies[s.pid]);
    ToolsListClean(scan, w, s);
    places, list := AnalysedExchange(s.p, s.result.value, w.proxies[s.pid], w.disk, s.fails, s.writeOk, s.spelling, s.now);
    hide AnalyzeToolsList, Received, AdvertisedTools, Sound, RawName, Bound, Clean, Description;
    var x := ExchangeOf(w, s);
    forall k | 0 <= k < |places| ensures Bound(x.store, list[k]) && !scan(Description(list[k])) {
      DeliveredIsClean(s.p, x.store, AdvertisedTools(s.result).value[places[k]], list[k]);
    }
  }
}
