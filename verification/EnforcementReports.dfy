/** What the ledger of a tools/list exchange says of each place, read off the list and the store the exchange starts
    from: in either mode exactly the detections there are, each under the action that was taken. */
module EnforcementReports {
  import opened Wrappers
  import opened Json
  import opened Baseline
  import opened Enforcement
  import opened Vouching
  import opened ExchangeFacts
  import opened EnforcementRules

  /** A sound tool that is blocked at first contact, and one that is parked for approval. */
  predicate BlockedAt(p: Policy, s: Trust, tool: Value) {
    p.mode == Enforce && p.suspicious(Description(tool)) && !IsKnown(s, NameOf(tool))
  }

  predicate ParkedAt(p: Policy, s: Trust, tool: Value) {
    !BlockedAt(p, s, tool) && p.firstContact == ApproveFirst && !IsKnown(s, NameOf(tool))
  }

  /** Which detections a sound tool that is neither secret nor revoked brings, under which action. */
  predicate Detected(p: Policy, s: Trust, tool: Value, kind: EventKind, action: Action) {
    var name := NameOf(tool);
    var changed := name in s.tools && s.tools[name].hash != Fingerprint(tool);
    match kind
    case ToolMalformed =>
      action == Analysed && (Get(tool, "inputSchema").None? || !Get(tool, "inputSchema").value.Obj?)
    case ToolRevoked => false
    case ToolPendingApproval => ParkedAt(p, s, tool) && action == WithheldPending
    case BaselineRegistered => !BlockedAt(p, s, tool) && !ParkedAt(p, s, tool) && name !in s.tools && action == NoAction
    case SchemaMismatch =>
      !BlockedAt(p, s, tool) && !ParkedAt(p, s, tool) && changed && action == (if p.mode == Enforce then Rewritten else Forwarded)
    case SuspiciousDescription =>
      !ParkedAt(p, s, tool) && p.suspicious(Description(tool))
      && action == (if p.mode == Monitor then Reported else if !IsKnown(s, name) then BlockedFirstContact
                    else if changed then RestoredBaseline else Blocked)
  }

  /** What the ledger says of the tool at a place. */
  ghost predicate ReportedAt(p: Policy, s: Trust, tools: seq<Value>, i: nat, kind: EventKind, action: Action)
    requires i < |tools|
  {
    if !Proper(tools, i) then kind == ToolMalformed && action == WithheldMalformed
    else
      var tool, name := tools[i], NameOf(tools[i]);
      if name in p.secret || name in s.revoked then
        || (kind == ToolMalformed && Detected(p, s, tool, kind, action))
        || (name !in p.secret && kind == ToolRevoked && action == WithheldRevoked)
      else Detected(p, s, tool, kind, action)
  }

  /** Some event of this kind, under this action, about this place. */
  ghost predicate Says(events: seq<Event>, i: nat, kind: EventKind, action: Action) {
    exists e :: e in events && e.index == i && e.kind == kind && e.action == action
  }

  lemma SaysAppend(a: seq<Event>, b: seq<Event>, i: nat, kind: EventKind, action: Action)
    ensures Says(a + b, i, kind, action) <==> Says(a, i, kind, action) || Says(b, i, kind, action)
  {
    assert forall e :: e in a + b <==> e in a || e in b;
  }

  lemma SaysOne(e: Event, i: nat, kind: EventKind, action: Action)
    ensures Says([e], i, kind, action) <==> e.index == i && e.kind == kind && e.action == action
    ensures !Says([], i, kind, action)
  {
    assert e in [e];
  }

  /** The event of the comparison, if there is one, and that of the sanitizer. */
  function Compared(p: Policy, i: nat, tool: Value, s: Trust): seq<Event> {
    var name := NameOf(tool);
    if name !in s.tools then [Event(BaselineRegistered, i, name, NoAction, false)]
    else if s.tools[name].hash == Fingerprint(tool) then []
    else [Event(SchemaMismatch, i, name, if p.mode == Enforce then Rewritten else Forwarded, p.mode == Enforce)]
  }

  function Scanned(p: Policy, i: nat, tool: Value, s: Trust): seq<Event> {
    var name := NameOf(tool);
    if !p.suspicious(Description(tool)) then []
    else
      [Event(SuspiciousDescription, i, name,
             if p.mode == Monitor then Reported
             else if name in s.tools && s.tools[name].hash != Fingerprint(tool) then RestoredBaseline else Blocked,
             p.mode == Enforce)]
  }

  lemma CheckedEvents(p: Policy, i: nat, tool: Value, s: Trust, now: nat)
    requires Sound(s)
    ensures DecideChecked(p, i, tool, s, now).events == Compared(p, i, tool, s) + Scanned(p, i, tool, s)
  {
    if NameOf(tool) in s.tools {
      assert Authentic(NameOf(tool), s.tools[NameOf(tool)]);
    }
    hide RawName, Fingerprint, Description, NameOf, Sound, Check;
  }

  lemma ComparedSays(p: Policy, i: nat, tool: Value, s: Trust, kind: EventKind, action: Action)
    requires !BlockedAt(p, s, tool) && !ParkedAt(p, s, tool)
    ensures Says(Compared(p, i, tool, s), i, kind, action)
            <==> (kind == BaselineRegistered || kind == SchemaMismatch) && Detected(p, s, tool, kind, action)
  {
    var e := Compared(p, i, tool, s);
    hide Fingerprint, Description, NameOf, Get, Says;
    SaysOne(if e == [] then Event(ToolRevoked, i, "", NoAction, false) else e[0], i, kind, action);
    assert e != [] ==> e == [e[0]];
  }

  lemma ScannedSays(p: Policy, i: nat, tool: Value, s: Trust, kind: EventKind, action: Action)
    requires !BlockedAt(p, s, tool) && !ParkedAt(p, s, tool)
    ensures Says(Scanned(p, i, tool, s), i, kind, action)
            <==> kind == SuspiciousDescription && Detected(p, s, tool, kind, action)
  {
    var e := Scanned(p, i, tool, s);
    hide Fingerprint, Description, NameOf, Get, Says;
    SaysOne(if e == [] then Event(ToolRevoked, i, "", NoAction, false) else e[0], i, kind, action);
    assert e != [] ==> e == [e[0]];
  }

  lemma CheckedReports(p: Policy, i: nat, tool: Value, s: Trust, now: nat, kind: EventKind, action: Action)
    requires Sound(s) && !BlockedAt(p, s, tool) && !ParkedAt(p, s, tool)
    ensures Says(DecideChecked(p, i, tool, s, now).events, i, kind, action)
            <==> kind != ToolMalformed && Detected(p, s, tool, kind, action)
  {
    CheckedEvents(p, i, tool, s, now);
    ComparedSays(p, i, tool, s, kind, action);
    ScannedSays(p, i, tool, s, kind, action);
    SaysAppend(Compared(p, i, tool, s), Scanned(p, i, tool, s), i, kind, action);
    hide DecideChecked, Compared, Scanned, Says, Fingerprint, NameOf, Description, Sound, BlockedAt, Get;
  }

  /** A sound tool, but for a missing input schema. */
  lemma SoundReports(p: Policy, i: nat, tool: Value, s: Trust, now: nat, kind: EventKind, action: Action)
    requires Sound(s) && RawName(tool) == Some(NameOf(tool))
    ensures var name := NameOf(tool);
            Says(DecideSound(p, i, tool, s, now).events, i, kind, action)
            <==> if name in p.secret then false
                 else if name in s.revoked then kind == ToolRevoked && action == WithheldRevoked
                 else kind != ToolMalformed && Detected(p, s, tool, kind, action)
  {
    var name := NameOf(tool);
    SaysOne(Event(ToolRevoked, i, name, WithheldRevoked, true), i, kind, action);
    SaysOne(Event(SuspiciousDescription, i, name, BlockedFirstContact, true), i, kind, action);
    SaysOne(Event(ToolPendingApproval, i, name, WithheldPending, true), i, kind, action);
    if !BlockedAt(p, s, tool) && !ParkedAt(p, s, tool) {
      CheckedReports(p, i, tool, s, now, kind, action);
    }
    hide RawName, Fingerprint, Description, NameOf, Sound, Get, Says, DecideChecked, Park;
  }

  lemma DecisionReports(p: Policy, i: nat, tool: Value, claims: string -> nat, s: Trust, now: nat, kind: EventKind, action: Action)
    requires Sound(s) && !DefectOf(tool, claims).Withholds()
    ensures var name := NameOf(tool);
            Says(Decide(p, i, tool, DefectOf(tool, claims), s, now).events, i, kind, action)
            <==> if name in p.secret || name in s.revoked then
                   || (kind == ToolMalformed && Detected(p, s, tool, kind, action))
                   || (name !in p.secret && kind == ToolRevoked && action == WithheldRevoked)
                 else Detected(p, s, tool, kind, action)
  {
    SoundlyNamed(tool, claims);
    SchemaDefect(tool, claims);
    var defect, reported := DefectOf(tool, claims), Event(ToolMalformed, i, NameOf(tool), Analysed, false);
    SoundReports(p, i, tool, s, now, kind, action);
    SaysOne(reported, i, kind, action);
    SaysAppend([reported], DecideSound(p, i, tool, s, now).events, i, kind, action);
    hide DecideSound, DefectOf, RawName, NameOf, Get, Says, Fingerprint, Description, Sound, BlockedAt, ParkedAt;
  }

  lemma SchemaDefect(tool: Value, claims: string -> nat)
    requires !DefectOf(tool, claims).Withholds()
    ensures DefectOf(tool, claims) == NoInputSchema <==> Get(tool, "inputSchema").None? || !Get(tool, "inputSchema").value.Obj?
  {
    hide TrimmedName, Get;
  }

  lemma FlawedReports(p: Policy, i: nat, tool: Value, defect: Defect, s: Trust, now: nat, kind: EventKind, action: Action)
    requires defect.Withholds()
    ensures Says(Decide(p, i, tool, defect, s, now).events, i, kind, action) <==> kind == ToolMalformed && action == WithheldMalformed
  {
    hide NameOf, Says;
    SaysOne(Event(ToolMalformed, i, NameOf(tool), WithheldMalformed, true), i, kind, action);
  }

  /** What is detected depends on what the store says of the name alone. */
  lemma DetectedAlike(p: Policy, s: Trust, t: Trust, tool: Value, kind: EventKind, action: Action)
    requires AgreeOn(s, t, NameOf(tool))
    ensures Detected(p, s, tool, kind, action) <==> Detected(p, t, tool, kind, action)
  {
    hide NameOf, Fingerprint, Description, Get;
  }

  /** The events about a place are those of its own decision. */
  lemma {:induction false} SaidOnce(p: Policy, tools: seq<Value>, n: nat, s: Trust, fails: set<nat>, now: nat, i: nat,
                                    kind: EventKind, action: Action)
    requires i < |tools| && n <= |tools| && Sound(s) && !Analyze(p, tools, n, s, fails, now).failed
    ensures Says(Analyze(p, tools, n, s, fails, now).deferred, i, kind, action)
            <==> i < n && Says(Decide(p, i, tools[i], Defects(tools)[i], Analyze(p, tools, i, s, fails, now).store, now).events, i, kind, action)
  {
    hide Sound, Decide, Defects, TakesFingerprint, NameOf, Says;
    if n == 0 {
      SaysOne(Event(ToolRevoked, 0, "", NoAction, false), i, kind, action);
    } else {
      var g := Analyze(p, tools, n - 1, s, fails, now);
      var d := Decide(p, n - 1, tools[n - 1], Defects(tools)[n - 1], g.store, now);
      SaidOnce(p, tools, n - 1, s, fails, now, i, kind, action);
      SaysAppend(g.deferred, d.events, i, kind, action);
      AnalyzeDelivers(p, tools, n - 1, s, fails, now);
      if i != n - 1 { OwnPlaceOnly(p, n - 1, tools[n - 1], Defects(tools)[n - 1], g.store, now, i, kind, action); }
    }
  }

  lemma OwnPlaceOnly(p: Policy, j: nat, tool: Value, defect: Defect, s: Trust, now: nat, i: nat, kind: EventKind, action: Action)
    requires i != j
    ensures !Says(Decide(p, j, tool, defect, s, now).events, i, kind, action)
  {
    DecideTrue(p, j, tool, defect, s, now);
    hide NameOf, Decide;
  }

  /** Place by place, of an analysis that was not abandoned. */
  lemma PlaceReports(p: Policy, tools: seq<Value>, s: Trust, fails: set<nat>, now: nat, i: nat, kind: EventKind, action: Action)
    requires i < |tools| && Sound(s) && !Analyze(p, tools, |tools|, s, fails, now).failed
    ensures Says(Analyze(p, tools, |tools|, s, fails, now).deferred, i, kind, action) <==> ReportedAt(p, s, tools, i, kind, action)
  {
    hide Sound, Proper, Analyze, NameOf, RawName, Decide, Says, Detected, DefectOf;
    SaidOnce(p, tools, |tools|, s, fails, now, i, kind, action);
    ProperIs(tools, i);
    AnalyzeDelivers(p, tools, i, s, fails, now);
    var t, defect := Analyze(p, tools, i, s, fails, now).store, Defects(tools)[i];
    if defect.Withholds() {
      FlawedReports(p, i, tools[i], defect, t, now, kind, action);
    } else {
      SoundHasName(tools, i);
      forall j | 0 <= j < i && !Defects(tools)[j].Withholds() ensures NameOf(tools[j]) != NameOf(tools[i]) {
        ProperNamesDiffer(tools, i, j);
      }
      StoreUntil(p, tools, i, s, fails, now, NameOf(tools[i]));
      DecisionReports(p, i, tools[i], name => Claims(tools, name), t, now, kind, action);
      DetectedAlike(p, s, t, tools[i], kind, action);
    }
  }

  /** The ledger of an analysed exchange, whether or not anything is enforced. */
  lemma ExchangeReports(p: Policy, result: Value, s: Trust, disk: Option<DiskText>, fails: set<nat>,
                        writeOk: bool, spelling: nat, now: nat, i: nat, kind: EventKind, action: Action)
    requires Sound(s) && AnalyzeToolsList(p, Some(result), s, disk, fails, writeOk, spelling, now).Analyzed?
    requires i < |AdvertisedTools(Some(result)).value|
    ensures Says(AnalyzeToolsList(p, Some(result), s, disk, fails, writeOk, spelling, now).events, i, kind, action)
            <==> ReportedAt(p, Reload(s, disk), AdvertisedTools(Some(result)).value, i, kind, action)
  {
    var tools, start := AdvertisedTools(Some(result)).value, Reload(s, disk);
    ReloadSound(s, disk);
    var g := Analyze(p, tools, |tools|, start, fails, now);
    hide Reload, Analyze, Sound, ReportedAt, Defects, Says;
    assert !g.failed;
    PlaceReports(p, tools, start, fails, now, i, kind, action);
    AnalyzeDelivers(p, tools, |tools|, start, fails, now);
    AnalyzeReportsTruly(p, tools, |tools|, start, fails, now);
    FinishSends(p, result, tools, g, disk, writeOk, spelling);
  }

  // ----- when an exchange is analysed at all ----------------------------------------------------------------------

  /** Its fingerprint is needed to decide on it. */
  ghost predicate FingerprintedAt(p: Policy, s: Trust, tools: seq<Value>, i: nat)
    requires i < |tools|
  {
    && Proper(tools, i) && NameOf(tools[i]) !in p.secret && NameOf(tools[i]) !in s.revoked
    && !BlockedAt(p, s, tools[i])
  }

  lemma FingerprintTaken(p: Policy, tools: seq<Value>, s: Trust, fails: set<nat>, now: nat, i: nat)
    requires i < |tools| && Sound(s) && !Analyze(p, tools, i, s, fails, now).failed
    ensures TakesFingerprint(p, tools[i], Defects(tools)[i], Analyze(p, tools, i, s, fails, now).store) <==> FingerprintedAt(p, s, tools, i)
  {
    ProperIs(tools, i);
    hide Sound, Defects, Proper, Analyze, NameOf, RawName, Description, Fingerprint;
    if !Defects(tools)[i].Withholds() {
      forall j | 0 <= j < i && !Defects(tools)[j].Withholds() ensures NameOf(tools[j]) != NameOf(tools[i]) {
        ProperNamesDiffer(tools, i, j);
      }
      StoreUntil(p, tools, i, s, fails, now, NameOf(tools[i]));
    }
  }

  lemma {:induction false} FailsWhen(p: Policy, tools: seq<Value>, n: nat, s: Trust, fails: set<nat>, now: nat)
    requires n <= |tools| && Sound(s)
    ensures Analyze(p, tools, n, s, fails, now).failed <==> exists i :: 0 <= i < n && i in fails && FingerprintedAt(p, s, tools, i)
  {
    hide Sound, Decide, Defects, TakesFingerprint, NameOf, FingerprintedAt;
    if n > 0 {
      FailsWhen(p, tools, n - 1, s, fails, now);
      if !Analyze(p, tools, n - 1, s, fails, now).failed {
        FingerprintTaken(p, tools, s, fails, now, n - 1);
      }
    }
  }

  /** A list is analysed to its end exactly when no fingerprint fails that is needed: nothing else abandons it. */
  lemma AnalysedWhen(p: Policy, result: Value, s: Trust, disk: Option<DiskText>, fails: set<nat>,
                     writeOk: bool, spelling: nat, now: nat)
    requires Sound(s) && AdvertisedTools(Some(result)).Some?
    ensures AnalyzeToolsList(p, Some(result), s, disk, fails, writeOk, spelling, now).Analyzed?
            <==> var tools := AdvertisedTools(Some(result)).value;
                 forall i :: 0 <= i < |tools| && i in fails ==> !FingerprintedAt(p, Reload(s, disk), tools, i)
  {
    var tools, start := AdvertisedTools(Some(result)).value, Reload(s, disk);
    ReloadSound(s, disk);
    FailsWhen(p, tools, |tools|, start, fails, now);
    hide Reload, Analyze, Sound, FingerprintedAt, Unblocked;
    assert result.Obj?;
  }
}
