/** The tools/list analysis as the proxy runs it (proxy.rs): a loop over the advertised tools that
    changes the store, the rewritten list, the set of withheld places and the held-back events. */
module ToolsList {
  import opened Wrappers
  import opened Json
  import opened Baseline
  import opened Enforcement

  /** One sound tool: shadowing, revocation, first contact, then fingerprint and sanitizer. */
  method InspectSound(store: BaselineStore, p: Policy, index: nat, tool: Value, now: nat)
    returns (withheld: bool, replacement: Option<Value>, events: seq<Event>)
    modifies store
    ensures Decision(store.Value(), withheld, replacement, events) == DecideSound(p, index, tool, old(store.Value()), now)
  {
    hide RawName, Description, Fingerprint, NewEntry;
    var name := NameOf(tool);
    withheld, replacement, events := true, None, [];
    if name in p.secret {
      return;
    }
    var flagged := p.suspicious(Description(tool));
    if name in store.revoked {
      events := [Event(ToolRevoked, index, name, WithheldRevoked, true)];
      return;
    }
    var contained := name in store.tools && name !in store.unpersisted;
    if p.mode == Enforce && flagged && !contained {
      events := [Event(SuspiciousDescription, index, name, BlockedFirstContact, true)];
      return;
    }
    var hash := Fingerprint(tool);
    if p.firstContact == ApproveFirst && !contained {
      var newly := store.RegisterPending(name, hash, tool, now);
      events := [Event(ToolPendingApproval, index, name, WithheldPending, true)];
      return;
    }
    withheld, replacement, events := CompareAndScan(store, p, index, tool, flagged, now);
  }

  method CompareAndScan(store: BaselineStore, p: Policy, index: nat, tool: Value, flagged: bool, now: nat)
    returns (withheld: bool, replacement: Option<Value>, events: seq<Event>)
    requires flagged == p.suspicious(Description(tool))
    modifies store
    ensures Decision(store.Value(), withheld, replacement, events) == DecideChecked(p, index, tool, old(store.Value()), now)
  {
    hide RawName, Description, Fingerprint, NewEntry, Check;
    var name, hash := NameOf(tool), Fingerprint(tool);
    withheld, replacement, events := false, None, [];
    var verdict := store.CheckTool(name, hash, tool, now);
    match verdict {
      case Registered =>
        events := [Event(BaselineRegistered, index, name, NoAction, false)];
      case Match =>
      case Mismatch(baseline) =>
        var rewrite := p.mode == Enforce && !baseline.tool.Null?;
        if rewrite {
          replacement := Some(baseline.tool);
        }
        events := [Event(SchemaMismatch, index, name, if rewrite then Rewritten else Forwarded, rewrite)];
    }
    if flagged {
      var action := if p.mode == Enforce then (if replacement.Some? then RestoredBaseline else Blocked) else Reported;
      events := events + [Event(SuspiciousDescription, index, name, action, p.mode == Enforce)];
      if p.mode == Enforce && replacement.None? {
        withheld := true;
      }
    }
  }

  /** The loop over the advertised tools. */
  method InspectAll(store: BaselineStore, p: Policy, tools: seq<Value>, fails: set<nat>, now: nat) returns (g: Progress)
    modifies store
    ensures g == Analyze(p, tools, |tools|, old(store.Value()), fails, now)
    ensures store.Value() == g.store
  {
    hide DecideSound, NameOf, Fingerprint, DefectOf, Description, Trust.File;
    var defects := InspectToolEntries(tools);
    ghost var start := store.Value();
    var clean: Option<seq<Value>>, blocked: set<nat>, deferred: seq<Event> := None, {}, [];
    var i := 0;
    while i < |tools|
      invariant i <= |tools| && (clean.Some? ==> |clean.value| == |tools|)
      invariant Progress(store.Value(), clean, blocked, deferred, false) == Analyze(p, tools, i, start, fails, now)
    {
      var tool, defect := tools[i], defects[i];
      if defect.Withholds() {
        blocked := blocked + {i};
        deferred := deferred + [Event(ToolMalformed, i, NameOf(tool), WithheldMalformed, true)];
        i := i + 1;
        continue;
      }
      var reported := [];
      if defect == NoInputSchema {
        reported := [Event(ToolMalformed, i, NameOf(tool), Analysed, false)];
      }
      var abandons := i in fails && MustFingerprint(store, p, tool);
      if abandons {
        g := Progress(store.Value(), clean, blocked, deferred + reported, true);
        AnalyzeStops(p, tools, i + 1, |tools|, start, fails, now);
        return;
      }
      var withheld, replacement, events := InspectSound(store, p, i, tool, now);
      if replacement.Some? {
        clean := Some(clean.GetOr(tools)[i := replacement.value]);
      }
      if withheld {
        blocked := blocked + {i};
      }
      deferred := deferred + (reported + events);
      i := i + 1;
    }
    g := Progress(store.Value(), clean, blocked, deferred, false);
  }

  predicate MustFingerprint(store: BaselineStore, p: Policy, tool: Value)
    reads store
  {
    var name := NameOf(tool);
    && name !in p.secret && name !in store.revoked
    && !(p.mode == Enforce && p.suspicious(Description(tool)) && !(name in store.tools && name !in store.unpersisted))
  }

  lemma {:induction false} AnalyzeStops(p: Policy, tools: seq<Value>, i: nat, n: nat, s: Trust, fails: set<nat>, now: nat)
    requires i <= n <= |tools| && Analyze(p, tools, i, s, fails, now).failed
    ensures Analyze(p, tools, n, s, fails, now) == Analyze(p, tools, i, s, fails, now)
    decreases n
  {
    hide Analyze;
    if i < n {
      AnalyzeStops(p, tools, i, n - 1, s, fails, now);
      AnalyzeStopsOnce(p, tools, n, s, fails, now);
    }
  }

  lemma AnalyzeStopsOnce(p: Policy, tools: seq<Value>, n: nat, s: Trust, fails: set<nat>, now: nat)
    requires 0 < n <= |tools| && Analyze(p, tools, n - 1, s, fails, now).failed
    ensures Analyze(p, tools, n, s, fails, now) == Analyze(p, tools, n - 1, s, fails, now)
  {
    hide Advance, Defects;
  }

  /** `analyze_tools_list_with_boundary`, its lock held. */
  method AnalyzeToolsList(store: BaselineStore, p: Policy, result: Option<Value>, fails: set<nat>, writeOk: bool,
                          spelling: nat, now: nat)
    returns (x: Exchange)
    modifies store, store.disk
    ensures x == Enforcement.AnalyzeToolsList(p, result, old(store.Value()), old(store.disk.text), fails, writeOk, spelling, now)
    ensures x.Malformed? ==> store.Value() == old(store.Value()) && store.disk.text == old(store.disk.text)
    ensures x.Failed? ==> store.Value() == x.store && store.disk.text == old(store.disk.text)
    ensures x.Analyzed? ==> store.Value() == x.store && store.disk.text == x.disk
  {
    hide Analyze, Reload, Unblocked, AdvertisedTools;
    var advertised := AdvertisedTools(result);
    if advertised.None? {
      return Malformed;
    }
    var tools := advertised.value;
    var reloaded := store.ReloadIfChanged();
    var g := InspectAll(store, p, tools, fails, now);
    if g.failed {
      return Failed(store.Value(), Emit(g.deferred, false));
    }
    var enforced := g.clean.Some? || g.blocked != {};
    var rewritten: Option<Value> := None;
    if enforced || p.descriptors != [] {
      assert result.Some? by { assert AdvertisedTools(result).Some?; AdvertisedResult(result); }
      rewritten := Rebuild(result.value, Unblocked(g.clean.GetOr(tools), g.blocked, 0) + p.descriptors);
      if rewritten.None? {
        return Failed(store.Value(), Emit(g.deferred, false));
      }
    }
    store.SaveIfDirty(writeOk, spelling);
    x := Analyzed(store.Value(), store.disk.text, rewritten, Emit(g.deferred, enforced && rewritten.Some?));
  }

  lemma AdvertisedResult(result: Option<Value>)
    requires AdvertisedTools(result).Some?
    ensures result.Some? && result.value.Obj?
  {
  }
}
