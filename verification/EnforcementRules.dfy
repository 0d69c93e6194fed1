/** What a tools/list exchange does with each tool, read off the list and the store it starts from alone: the loop
    changes the store as it goes, but no proper tool can meet what another left. */
module EnforcementRules {
  import opened Wrappers
  import opened Text
  import opened Json
  import opened Baseline
  import opened Enforcement
  import opened Vouching
  import opened ExchangeFacts

  // ----- proper tools -------------------------------------------------------------------------------------------

  /** A tool's name with the white space around it gone, if it has one that is not blank. */
  ghost predicate Claimed(tool: Value, name: string) {
    exists raw :: Get(tool, "name") == Some(Str(raw)) && Trim(raw) == name && name != ""
  }

  /** An object, with a name of at most 128 bytes that no other tool claims, and a description that is text. */
  ghost predicate Proper(tools: seq<Value>, i: nat)
    requires i < |tools|
  {
    && tools[i].Obj?
    && (exists name :: Claimed(tools[i], name) && ByteLen(name) <= 128
                       && forall j :: 0 <= j < |tools| && j != i ==> !Claimed(tools[j], name))
    && (Get(tools[i], "description").Some? ==> Get(tools[i], "description").value.Str?)
  }

  lemma ClaimedIs(tool: Value, name: string)
    ensures Claimed(tool, name) <==> TrimmedName(tool) == Some(name)
  {
    hide Trim, Find;
  }

  lemma {:induction false} ClaimsNone(tools: seq<Value>, name: string)
    requires forall j :: 0 <= j < |tools| ==> TrimmedName(tools[j]) != Some(name)
    ensures Claims(tools, name) == 0
  {
    hide TrimmedName;
    if tools != [] { ClaimsNone(tools[1..], name); }
  }

  lemma {:induction false} ClaimsOnce(tools: seq<Value>, name: string, i: nat)
    requires i < |tools| && forall j :: 0 <= j < |tools| && j != i ==> TrimmedName(tools[j]) != Some(name)
    ensures Claims(tools, name) <= 1
  {
    hide TrimmedName;
    if i > 0 {
      ClaimsOnce(tools[1..], name, i - 1);
    } else {
      ClaimsNone(tools[1..], name);
    }
  }

  /** The defects that withhold a tool are exactly what makes it improper. */
  lemma ProperIs(tools: seq<Value>, i: nat)
    requires i < |tools|
    ensures !Defects(tools)[i].Withholds() <==> Proper(tools, i)
  {
    hide TrimmedName, Get, ByteLen, Claimed;
    forall j, name | 0 <= j < |tools| ensures Claimed(tools[j], name) <==> TrimmedName(tools[j]) == Some(name) {
      ClaimedIs(tools[j], name);
    }
    var name := TrimmedName(tools[i]);
    assert forall n :: Claimed(tools[i], n) <==> name == Some(n);
    var defect := DefectOf(tools[i], n => Claims(tools, n));
    assert Defects(tools)[i] == defect;
    if name.Some? {
      assert Claimed(tools[i], name.value);
      if forall j :: 0 <= j < |tools| && j != i ==> !Claimed(tools[j], name.value) {
        ClaimsOnce(tools, name.value, i);
        assert Proper(tools, i) <==> tools[i].Obj? && ByteLen(name.value) <= 128
                                     && (Get(tools[i], "description").Some? ==> Get(tools[i], "description").value.Str?);
      } else {
        var j :| 0 <= j < |tools| && j != i && Claimed(tools[j], name.value);
        if i < j { ClaimsTwo(tools, name.value, i, j); } else { ClaimsTwo(tools, name.value, j, i); }
      }
    }
  }

  // ----- the rule for one place ---------------------------------------------------------------------------------

  /** A name is known when its entry is more than a guess. */
  predicate IsKnown(s: Trust, name: string) {
    name in s.tools && name !in s.unpersisted
  }

  /** When the tool at a place is withheld. */
  ghost predicate WithheldAt(p: Policy, s: Trust, tools: seq<Value>, i: nat)
    requires i < |tools|
  {
    var name := NameOf(tools[i]);
    || !Proper(tools, i)
    || name in p.secret
    || name in s.revoked
    || (!IsKnown(s, name) && p.firstContact == ApproveFirst)
    || (p.mode == Enforce && p.suspicious(Description(tools[i]))
        && (!IsKnown(s, name) || s.tools[name].hash == Fingerprint(tools[i])))
  }

  /** What the agent gets in its place when it is not. */
  function PassedOn(p: Policy, s: Trust, tool: Value): Value {
    if p.mode == Enforce && NameOf(tool) in s.tools && s.tools[NameOf(tool)].hash != Fingerprint(tool)
    then s.tools[NameOf(tool)].tool
    else tool
  }

  /** Two stores that say the same of one name. */
  ghost predicate AgreeOn(s: Trust, t: Trust, name: string) {
    && s.revoked == t.revoked
    && (name in s.tools <==> name in t.tools) && (name in s.tools ==> s.tools[name] == t.tools[name])
    && (name in s.pending <==> name in t.pending) && (name in s.pending ==> s.pending[name] == t.pending[name])
    && (name in s.unpersisted <==> name in t.unpersisted)
  }

  /** What one tool leaves in the store: nothing, a parked entry, or a registered one. */
  ghost predicate Stores(p: Policy, s: Trust, t: Trust, tool: Value, now: nat) {
    var name, e := NameOf(tool), Entry(Fingerprint(tool), Description(tool), now, tool);
    var blocked := p.mode == Enforce && p.suspicious(Description(tool)) && !IsKnown(s, name);
    if name in p.secret || name in s.revoked || blocked then t == s
    else if p.firstContact == ApproveFirst && !IsKnown(s, name) then
      if name in s.pending then t == s else t == s.(pending := s.pending[name := e], dirty := true)
    else if name in s.tools then t == s
    else t == s.(tools := s.tools[name := e], unpersisted := s.unpersisted + {name}, dirty := true)
  }

  lemma CheckedRule(p: Policy, i: nat, tool: Value, s: Trust, now: nat)
    requires Sound(s) && RawName(tool) == Some(NameOf(tool))
    ensures var d, name := DecideChecked(p, i, tool, s, now), NameOf(tool);
            && (d.withheld <==> p.mode == Enforce && p.suspicious(Description(tool))
                                && !(name in s.tools && s.tools[name].hash != Fingerprint(tool)))
            && d.replacement.GetOr(tool) == PassedOn(p, s, tool)
            && d.store == (if name in s.tools then s
                           else s.(tools := s.tools[name := Entry(Fingerprint(tool), Description(tool), now, tool)],
                                   unpersisted := s.unpersisted + {name}, dirty := true))
  {
    if NameOf(tool) in s.tools {
      assert Authentic(NameOf(tool), s.tools[NameOf(tool)]);
    }
    hide RawName, Fingerprint, Description, NameOf, Sound;
  }

  /** One decision, against the rule on the store it is made with. */
  lemma DecideRule(p: Policy, i: nat, tool: Value, defect: Defect, s: Trust, now: nat)
    requires Sound(s) && !defect.Withholds() && RawName(tool) == Some(NameOf(tool))
    ensures var d, name := Decide(p, i, tool, defect, s, now), NameOf(tool);
            && (d.withheld <==> || name in p.secret || name in s.revoked
                                || (!IsKnown(s, name) && p.firstContact == ApproveFirst)
                                || (p.mode == Enforce && p.suspicious(Description(tool))
                                    && (!IsKnown(s, name) || s.tools[name].hash == Fingerprint(tool))))
            && (!d.withheld ==> d.replacement.GetOr(tool) == PassedOn(p, s, tool))
            && Stores(p, s, d.store, tool, now)
  {
    CheckedRule(p, i, tool, s, now);
    hide RawName, Fingerprint, Description, NameOf, Sound, DecideChecked, PassedOn;
  }

  lemma DecideLeavesOthers(p: Policy, i: nat, tool: Value, defect: Defect, s: Trust, now: nat, name: string)
    requires Sound(s) && (defect.Withholds() || (RawName(tool) == Some(NameOf(tool)) && NameOf(tool) != name))
    ensures AgreeOn(s, Decide(p, i, tool, defect, s, now).store, name)
  {
    hide RawName, Fingerprint, Description, NameOf, Sound;
    if !defect.Withholds() {
      DecideRule(p, i, tool, defect, s, now);
      hide Decide;
    }
  }

  // ----- the rule for the list ----------------------------------------------------------------------------------

  lemma AgreeTransitive(s: Trust, t: Trust, u: Trust, name: string)
    requires AgreeOn(s, t, name) && AgreeOn(t, u, name)
    ensures AgreeOn(s, u, name)
  {
  }

  /** The store says of a name what it said at the start until the tool of that name is reached. */
  lemma {:induction false} StoreUntil(p: Policy, tools: seq<Value>, n: nat, s: Trust, fails: set<nat>, now: nat, name: string)
    requires n <= |tools| && Sound(s)
    requires forall j :: 0 <= j < n && !Defects(tools)[j].Withholds() ==> NameOf(tools[j]) != name
    ensures AgreeOn(s, Analyze(p, tools, n, s, fails, now).store, name)
  {
    hide Analyze, Decide, Defects, Sound, AgreeOn, NameOf;
    AnalyzeStart(p, tools, s, fails, now);
    if n == 0 {
      AgreesWithItself(s, name);
    } else {
      StoreUntil(p, tools, n - 1, s, fails, now, name);
      AnalyzeDelivers(p, tools, n - 1, s, fails, now);
      AnalyzeStore(p, tools, n, s, fails, now);
      var g := Analyze(p, tools, n - 1, s, fails, now);
      if !Defects(tools)[n - 1].Withholds() {
        SoundHasName(tools, n - 1);
      }
      DecideLeavesOthers(p, n - 1, tools[n - 1], Defects(tools)[n - 1], g.store, now, name);
      AgreeTransitive(s, g.store, Decide(p, n - 1, tools[n - 1], Defects(tools)[n - 1], g.store, now).store, name);
    }
  }

  lemma AgreesWithItself(s: Trust, name: string)
    ensures AgreeOn(s, s, name)
  {
  }

  lemma SoundHasName(tools: seq<Value>, i: nat)
    requires i < |tools| && !Defects(tools)[i].Withholds()
    ensures RawName(tools[i]) == Some(NameOf(tools[i]))
  {
    hide DefectOf, RawName, NameOf;
    SoundlyNamed(tools[i], name => Claims(tools, name));
  }

  /** Once decided, a place is left alone. */
  lemma {:induction false} Decided(p: Policy, tools: seq<Value>, n: nat, s: Trust, fails: set<nat>, now: nat, i: nat)
    requires i < n <= |tools| && Sound(s) && !Analyze(p, tools, n, s, fails, now).failed
    ensures var g, g0 := Analyze(p, tools, n, s, fails, now), Analyze(p, tools, i, s, fails, now);
            var d := Decide(p, i, tools[i], Defects(tools)[i], g0.store, now);
            && !g0.failed
            && (i in g.blocked <==> d.withheld)
            && Out(tools, g)[i] == d.replacement.GetOr(tools[i])
  {
    hide Sound, Decide, Defects, TakesFingerprint, NameOf, Grows, AllDelivered;
    AnalyzeDelivers(p, tools, n - 1, s, fails, now);
    var g1 := Analyze(p, tools, n - 1, s, fails, now);
    if i < n - 1 {
      Decided(p, tools, n - 1, s, fails, now, i);
    }
  }

  lemma ProperNamesDiffer(tools: seq<Value>, i: nat, j: nat)
    requires i < |tools| && j < |tools| && i != j && !Defects(tools)[i].Withholds() && !Defects(tools)[j].Withholds()
    ensures NameOf(tools[i]) != NameOf(tools[j])
  {
    SoundHasName(tools, i);
    SoundHasName(tools, j);
    hide Defects, RawName, NameOf, TrimmedName;
    if i < j { SoundNamesDistinct(tools, i, j); } else { SoundNamesDistinct(tools, j, i); }
  }

  lemma FlawedIsWithheld(p: Policy, i: nat, tool: Value, defect: Defect, s: Trust, now: nat)
    requires defect.Withholds()
    ensures Decide(p, i, tool, defect, s, now).withheld && Decide(p, i, tool, defect, s, now).replacement.None?
  {
    hide NameOf;
  }

  /** What becomes of a place, by the store the analysis starts from. */
  lemma PlaceRule(p: Policy, tools: seq<Value>, s: Trust, fails: set<nat>, now: nat, i: nat)
    requires i < |tools| && Sound(s) && !Analyze(p, tools, |tools|, s, fails, now).failed
    ensures var g := Analyze(p, tools, |tools|, s, fails, now);
            && (i in g.blocked <==> WithheldAt(p, s, tools, i))
            && |Out(tools, g)| == |tools|
            && (i !in g.blocked ==> Out(tools, g)[i] == PassedOn(p, s, tools[i]))
  {
    hide Sound, Defects, Proper, Analyze, NameOf, RawName, Fingerprint, Description, Decide;
    ProperIs(tools, i);
    Decided(p, tools, |tools|, s, fails, now, i);
    AnalyzeDelivers(p, tools, |tools|, s, fails, now);
    AnalyzeDelivers(p, tools, i, s, fails, now);
    var t, defect := Analyze(p, tools, i, s, fails, now).store, Defects(tools)[i];
    if defect.Withholds() {
      FlawedIsWithheld(p, i, tools[i], defect, t, now);
    } else {
      SoundHasName(tools, i);
      forall j | 0 <= j < i && !Defects(tools)[j].Withholds() ensures NameOf(tools[j]) != NameOf(tools[i]) {
        ProperNamesDiffer(tools, i, j);
      }
      StoreUntil(p, tools, i, s, fails, now, NameOf(tools[i]));
      DecideRule(p, i, tools[i], defect, t, now);
    }
  }

  /** The tools the agent is handed, each judged by itself. */
  ghost function HandedOut(p: Policy, s: Trust, tools: seq<Value>, from: nat): seq<Value>
    requires from <= |tools|
    decreases |tools| - from
  {
    if from == |tools| then []
    else (if WithheldAt(p, s, tools, from) then [] else [PassedOn(p, s, tools[from])]) + HandedOut(p, s, tools, from + 1)
  }

  lemma {:induction false} UnblockedIsHandedOut(p: Policy, s: Trust, tools: seq<Value>, out: seq<Value>, blocked: set<nat>, from: nat)
    requires from <= |tools| == |out|
    requires forall i :: 0 <= i < |tools| ==>
               (i in blocked <==> WithheldAt(p, s, tools, i)) && (i !in blocked ==> out[i] == PassedOn(p, s, tools[i]))
    ensures Unblocked(out, blocked, from) == HandedOut(p, s, tools, from)
    decreases |tools| - from
  {
    hide WithheldAt, PassedOn;
    if from < |tools| {
      UnblockedIsHandedOut(p, s, tools, out, blocked, from + 1);
    }
  }

  lemma {:induction false} HandedOutHas(p: Policy, s: Trust, tools: seq<Value>, from: nat, i: nat)
    requires from <= i < |tools| && !WithheldAt(p, s, tools, i)
    ensures PassedOn(p, s, tools[i]) in HandedOut(p, s, tools, from)
    decreases |tools| - from
  {
    hide WithheldAt, PassedOn;
    if from < i {
      HandedOutHas(p, s, tools, from + 1, i);
    }
  }

  /** The whole exchange: the agent's list is, in order, what the rule hands out of each place, and then the boundary's
      own tools. No event reports a place as withheld that the rule hands out. */
  lemma ExchangeHandsOut(p: Policy, result: Value, s: Trust, disk: Option<DiskText>, fails: set<nat>,
                         writeOk: bool, spelling: nat, now: nat)
    requires Sound(s)
    requires AnalyzeToolsList(p, Some(result), s, disk, fails, writeOk, spelling, now).Analyzed?
    ensures var x := AnalyzeToolsList(p, Some(result), s, disk, fails, writeOk, spelling, now);
            var tools, start := AdvertisedTools(Some(result)).value, Reload(s, disk);
            && Get(Received(result, x), "tools") == Some(Arr(HandedOut(p, start, tools, 0) + p.descriptors))
            && (forall e :: e in x.events && e.action.Withholds() ==> e.index < |tools| && WithheldAt(p, start, tools, e.index))
  {
    var tools := AdvertisedTools(Some(result)).value;
    var start := Reload(s, disk);
    ReloadSound(s, disk);
    var g := Analyze(p, tools, |tools|, start, fails, now);
    hide Reload, Analyze, Sound, WithheldAt, PassedOn, Defects;
    assert !g.failed;
    forall i | 0 <= i < |tools|
      ensures (i in g.blocked <==> WithheldAt(p, start, tools, i)) && |Out(tools, g)| == |tools|
              && (i !in g.blocked ==> Out(tools, g)[i] == PassedOn(p, start, tools[i]))
    {
      PlaceRule(p, tools, start, fails, now, i);
    }
    AnalyzeDelivers(p, tools, |tools|, start, fails, now);
    UnblockedIsHandedOut(p, start, tools, Out(tools, g), g.blocked, 0);
    AnalyzeReportsTruly(p, tools, |tools|, start, fails, now);
    FinishSends(p, result, tools, g, disk, writeOk, spelling);
    hide Finish, Received, HandedOut, Unblocked, Grows;
    var x := AnalyzeToolsList(p, Some(result), s, disk, fails, writeOk, spelling, now);
    forall e | e in x.events && e.action.Withholds() ensures e.index < |tools| && WithheldAt(p, start, tools, e.index) {
      assert EventTrue(tools, g, e);
    }
  }

  // ----- what a proper tool can count on ------------------------------------------------------------------------

  /** A tool that is trusted as it is advertised, clean, and neither secret nor revoked reaches the agent as it is, in
      either mode and under either policy, and no event says that it was withheld. */
  lemma TrustedToolIsHandedOut(p: Policy, result: Value, s: Trust, disk: Option<DiskText>, fails: set<nat>,
                               writeOk: bool, spelling: nat, now: nat, i: nat) returns (list: seq<Value>)
    requires Sound(s) && AnalyzeToolsList(p, Some(result), s, disk, fails, writeOk, spelling, now).Analyzed?
    requires i < |AdvertisedTools(Some(result)).value|
    requires var tools, start := AdvertisedTools(Some(result)).value, Reload(s, disk);
             var name := NameOf(tools[i]);
             && Proper(tools, i) && name !in p.secret && name !in start.revoked
             && name in start.tools && name !in start.unpersisted && start.tools[name].hash == Fingerprint(tools[i])
             && !p.suspicious(Description(tools[i]))
    ensures var x := AnalyzeToolsList(p, Some(result), s, disk, fails, writeOk, spelling, now);
            && Get(Received(result, x), "tools") == Some(Arr(list))
            && AdvertisedTools(Some(result)).value[i] in list
            && forall e :: e in x.events && e.index == i ==> !e.action.Withholds()
  {
    var tools, start := AdvertisedTools(Some(result)).value, Reload(s, disk);
    list := HandedOut(p, start, tools, 0) + p.descriptors;
    hide Proper, Reload, NameOf, Fingerprint, Description, Sound, AnalyzeToolsList, AdvertisedTools, Received;
    ExchangeHandsOut(p, result, s, disk, fails, writeOk, spelling, now);
    HandedOutHas(p, start, tools, 0, i);
  }

  /** Where a first sighting is trusted, a clean tool that was never seen reaches the agent as it is. */
  lemma FirstSightIsHandedOut(p: Policy, result: Value, s: Trust, disk: Option<DiskText>, fails: set<nat>,
                              writeOk: bool, spelling: nat, now: nat, i: nat) returns (list: seq<Value>)
    requires Sound(s) && AnalyzeToolsList(p, Some(result), s, disk, fails, writeOk, spelling, now).Analyzed?
    requires i < |AdvertisedTools(Some(result)).value| && p.firstContact == TrustFirst
    requires var tools, start := AdvertisedTools(Some(result)).value, Reload(s, disk);
             var name := NameOf(tools[i]);
             && Proper(tools, i) && name !in p.secret && name !in start.revoked && name !in start.tools
             && !p.suspicious(Description(tools[i]))
    ensures var x := AnalyzeToolsList(p, Some(result), s, disk, fails, writeOk, spelling, now);
            && Get(Received(result, x), "tools") == Some(Arr(list))
            && AdvertisedTools(Some(result)).value[i] in list
            && forall e :: e in x.events && e.index == i ==> !e.action.Withholds()
  {
    var tools, start := AdvertisedTools(Some(result)).value, Reload(s, disk);
    list := HandedOut(p, start, tools, 0) + p.descriptors;
    hide Proper, Reload, NameOf, Fingerprint, Description, Sound, AnalyzeToolsList, AdvertisedTools, Received;
    ExchangeHandsOut(p, result, s, disk, fails, writeOk, spelling, now);
    HandedOutHas(p, start, tools, 0, i);
  }

  /** In monitor mode whatever passes the first-contact gate reaches the agent as it is, changed or suspicious or not. */
  lemma MonitorHandsOut(p: Policy, result: Value, s: Trust, disk: Option<DiskText>, fails: set<nat>,
                        writeOk: bool, spelling: nat, now: nat, i: nat) returns (list: seq<Value>)
    requires Sound(s) && AnalyzeToolsList(p, Some(result), s, disk, fails, writeOk, spelling, now).Analyzed?
    requires i < |AdvertisedTools(Some(result)).value| && p.mode == Monitor
    requires var tools, start := AdvertisedTools(Some(result)).value, Reload(s, disk);
             var name := NameOf(tools[i]);
             && Proper(tools, i) && name !in p.secret && name !in start.revoked
             && (p.firstContact == ApproveFirst ==> name in start.tools && name !in start.unpersisted)
    ensures var x := AnalyzeToolsList(p, Some(result), s, disk, fails, writeOk, spelling, now);
            && Get(Received(result, x), "tools") == Some(Arr(list))
            && AdvertisedTools(Some(result)).value[i] in list
            && forall e :: e in x.events && e.index == i ==> !e.action.Withholds()
  {
    var tools, start := AdvertisedTools(Some(result)).value, Reload(s, disk);
    list := HandedOut(p, start, tools, 0) + p.descriptors;
    hide Proper, Reload, NameOf, Fingerprint, Description, Sound, AnalyzeToolsList, AdvertisedTools, Received;
    ExchangeHandsOut(p, result, s, disk, fails, writeOk, spelling, now);
    HandedOutHas(p, start, tools, 0, i);
  }

  /** In enforce mode a trusted tool that was changed is not withheld: the agent gets it as it was trusted. */
  lemma ChangedToolIsRestored(p: Policy, result: Value, s: Trust, disk: Option<DiskText>, fails: set<nat>,
                              writeOk: bool, spelling: nat, now: nat, i: nat) returns (list: seq<Value>)
    requires Sound(s) && AnalyzeToolsList(p, Some(result), s, disk, fails, writeOk, spelling, now).Analyzed?
    requires i < |AdvertisedTools(Some(result)).value| && p.mode == Enforce
    requires var tools, start := AdvertisedTools(Some(result)).value, Reload(s, disk);
             var name := NameOf(tools[i]);
             && Proper(tools, i) && name !in p.secret && name !in start.revoked
             && name in start.tools && name !in start.unpersisted && start.tools[name].hash != Fingerprint(tools[i])
    ensures var x := AnalyzeToolsList(p, Some(result), s, disk, fails, writeOk, spelling, now);
            && Get(Received(result, x), "tools") == Some(Arr(list))
            && Reload(s, disk).tools[NameOf(AdvertisedTools(Some(result)).value[i])].tool in list
            && forall e :: e in x.events && e.index == i ==> !e.action.Withholds()
  {
    var tools, start := AdvertisedTools(Some(result)).value, Reload(s, disk);
    list := HandedOut(p, start, tools, 0) + p.descriptors;
    hide Proper, Reload, NameOf, Fingerprint, Description, Sound, AnalyzeToolsList, AdvertisedTools, Received;
    ExchangeHandsOut(p, result, s, disk, fails, writeOk, spelling, now);
    HandedOutHas(p, start, tools, 0, i);
  }

  // ----- what it leaves in the store ----------------------------------------------------------------------------

  lemma {:induction false} StoreAfter(p: Policy, tools: seq<Value>, i: nat, n: nat, s: Trust, fails: set<nat>, now: nat, name: string)
    requires i <= n <= |tools| && Sound(s)
    requires forall j :: i <= j < n && !Defects(tools)[j].Withholds() ==> NameOf(tools[j]) != name
    ensures AgreeOn(Analyze(p, tools, i, s, fails, now).store, Analyze(p, tools, n, s, fails, now).store, name)
    decreases n
  {
    hide Analyze, Decide, Defects, Sound, AgreeOn, NameOf;
    var first := Analyze(p, tools, i, s, fails, now).store;
    if n == i {
      AgreesWithItself(first, name);
    } else {
      StoreAfter(p, tools, i, n - 1, s, fails, now, name);
      AnalyzeDelivers(p, tools, n - 1, s, fails, now);
      AnalyzeStore(p, tools, n, s, fails, now);
      var g := Analyze(p, tools, n - 1, s, fails, now);
      if !Defects(tools)[n - 1].Withholds() {
        SoundHasName(tools, n - 1);
      }
      DecideLeavesOthers(p, n - 1, tools[n - 1], Defects(tools)[n - 1], g.store, now, name);
      AgreesWithItself(g.store, name);
      AgreeTransitive(first, g.store, Analyze(p, tools, n, s, fails, now).store, name);
    }
  }

  /** Of a proper tool the store keeps exactly this: a tool that is let in and unknown is registered, one that awaits
      approval is parked the first time, and nothing else is changed under its name. */
  lemma PlaceStores(p: Policy, tools: seq<Value>, s: Trust, fails: set<nat>, now: nat, i: nat)
    requires i < |tools| && Sound(s) && Proper(tools, i) && !Analyze(p, tools, |tools|, s, fails, now).failed
    ensures exists t :: Stores(p, s, t, tools[i], now)
                        && AgreeOn(t, Analyze(p, tools, |tools|, s, fails, now).store, NameOf(tools[i]))
  {
    hide Sound, Defects, Proper, Analyze, NameOf, RawName, Fingerprint, Description, Decide, AgreeOn, Stores;
    ProperIs(tools, i);
    SoundHasName(tools, i);
    var name, n := NameOf(tools[i]), |tools|;
    forall j | 0 <= j < n && j != i && !Defects(tools)[j].Withholds() ensures NameOf(tools[j]) != name {
      ProperNamesDiffer(tools, i, j);
    }
    StoreUntil(p, tools, i, s, fails, now, name);
    AnalyzeDelivers(p, tools, i, s, fails, now);
    Decided(p, tools, n, s, fails, now, i);
    var t := Analyze(p, tools, i, s, fails, now).store;
    DecideRule(p, i, tools[i], Defects(tools)[i], t, now);
    var u := Decide(p, i, tools[i], Defects(tools)[i], t, now).store;
    DecidedStore(p, tools, n, s, fails, now, i);
    StoreAfter(p, tools, i + 1, n, s, fails, now, name);
    var v := StoresAlike(p, s, t, u, tools[i], now);
    AgreeTransitive(v, u, Analyze(p, tools, n, s, fails, now).store, name);
  }

  lemma {:induction false} DecidedStore(p: Policy, tools: seq<Value>, n: nat, s: Trust, fails: set<nat>, now: nat, i: nat)
    requires i < n <= |tools| && !Analyze(p, tools, n, s, fails, now).failed
    ensures Analyze(p, tools, i + 1, s, fails, now).store
            == Decide(p, i, tools[i], Defects(tools)[i], Analyze(p, tools, i, s, fails, now).store, now).store
  {
    hide Decide, Defects, TakesFingerprint, NameOf;
    if i < n - 1 {
      DecidedStore(p, tools, n - 1, s, fails, now, i);
    }
  }

  /** What is stored depends on what the store says of the name alone. */
  lemma StoresAlike(p: Policy, s: Trust, t: Trust, u: Trust, tool: Value, now: nat) returns (v: Trust)
    requires AgreeOn(s, t, NameOf(tool)) && Stores(p, t, u, tool, now)
    ensures Stores(p, s, v, tool, now) && AgreeOn(v, u, NameOf(tool))
  {
    hide NameOf, Fingerprint, Description;
    var name, e := NameOf(tool), Entry(Fingerprint(tool), Description(tool), now, tool);
    if u == t {
      v := s;
    } else if name !in t.tools && name in u.tools {
      v := s.(tools := s.tools[name := e], unpersisted := s.unpersisted + {name}, dirty := true);
    } else {
      v := s.(pending := s.pending[name := e], dirty := true);
    }
  }
}
