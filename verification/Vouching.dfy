/** What a tools/list exchange guarantees: which tools can reach the agent, and that the ledger tells
    the truth about them (proxy.rs). */
module Vouching {
  import opened Wrappers
  import opened Text
  import opened Json
  import opened Baseline
  import opened Enforcement

  // ----- what is kept across one exchange ---------------------------------------------------------------

  /** Trust only grows within an exchange: no trusted entry changes, no revocation goes. */
  predicate Grows(s: Trust, t: Trust) {
    && (forall name :: name in s.tools ==> name in t.tools && t.tools[name] == s.tools[name])
    && (forall name :: name in s.pending ==> name in t.pending && t.pending[name] == s.pending[name])
    && s.revoked == t.revoked
    && s.digest == t.digest
  }

  /** A tool is bound to the hash trusted for its name. */
  predicate Bound(s: Trust, tool: Value) {
    && RawName(tool).Some? && RawName(tool).value in s.tools
    && Fingerprint(tool) == s.tools[RawName(tool).value].hash
  }

  /** What may stand where the server put `original`: that tool, or the one trusted for its name. In
      enforce mode it is bound to its trusted hash, and only a trusted tool can still be suspicious. */
  predicate Delivered(p: Policy, s: Trust, original: Value, out: Value) {
    && RawName(original).Some? && RawName(out) == RawName(original)
    && RawName(original).value !in s.revoked && RawName(original).value !in p.secret
    && (out == original
        || (RawName(original).value in s.tools && out == s.tools[RawName(original).value].tool))
    && (p.mode == Enforce ==>
          && Bound(s, out)
          && (p.suspicious(Description(out)) ==> out == s.tools[RawName(original).value].tool))
  }

  lemma DeliveredPersists(p: Policy, s: Trust, t: Trust, original: Value, out: Value)
    requires Delivered(p, s, original, out) && Grows(s, t)
    ensures Delivered(p, t, original, out)
  {
    hide RawName, Fingerprint, Description;
  }

  lemma GrowsTransitive(s: Trust, t: Trust, u: Trust)
    requires Grows(s, t) && Grows(t, u)
    ensures Grows(s, u)
  {
  }

  lemma SoundlyNamed(tool: Value, claims: string -> nat)
    requires !DefectOf(tool, claims).Withholds()
    ensures RawName(tool) == Some(NameOf(tool))
  {
    hide RawName, Trim, ByteLen, Get;
  }

  // ----- one tool ---------------------------------------------------------------------------------------------

  lemma CheckGrows(s: Trust, tool: Value, now: nat)
    requires Sound(s) && RawName(tool).Some?
    ensures var t := Check(s, RawName(tool).value, Fingerprint(tool), tool, now);
            Sound(t) && Grows(s, t) && RawName(tool).value in t.tools
  {
    CheckSound(s, RawName(tool).value, tool, now);
    hide RawName, Fingerprint, Sound, Check, Grows;
    CheckOnlyAdds(s, RawName(tool).value, Fingerprint(tool), tool, now);
  }

  lemma CheckOnlyAdds(s: Trust, name: string, hash: string, tool: Value, now: nat)
    ensures Grows(s, Check(s, name, hash, tool, now)) && name in Check(s, name, hash, tool, now).tools
  {
    hide NewEntry;
  }

  lemma ParkGrows(s: Trust, tool: Value, now: nat)
    requires Sound(s) && RawName(tool).Some?
    ensures var t := Park(s, RawName(tool).value, Fingerprint(tool), tool, now);
            Sound(t) && Grows(s, t)
  {
    ParkSound(s, RawName(tool).value, tool, now);
    hide RawName, Fingerprint, Description, Sound;
  }

  /** What a decision does to the store, and what it lets through. */
  ghost predicate DecisionDelivers(p: Policy, tool: Value, s: Trust, d: Decision) {
    && Sound(d.store) && Grows(s, d.store)
    && (!d.withheld ==> Delivered(p, d.store, tool, d.replacement.GetOr(tool)))
    && (d.replacement.Some? ==> !d.withheld && NameOf(tool) in d.store.tools
                                && d.replacement.value == d.store.tools[NameOf(tool)].tool)
  }

  lemma DecideCheckedDelivers(p: Policy, index: nat, tool: Value, s: Trust, now: nat)
    requires Sound(s) && RawName(tool) == Some(NameOf(tool))
    requires NameOf(tool) !in p.secret && NameOf(tool) !in s.revoked
    ensures DecisionDelivers(p, tool, s, DecideChecked(p, index, tool, s, now))
  {
    CheckGrows(s, tool, now);
    if NameOf(tool) in s.tools {
      assert Authentic(NameOf(tool), s.tools[NameOf(tool)]);
    }
    hide RawName, Fingerprint, Description, Sound, NameOf;
  }

  lemma DecideDelivers(p: Policy, index: nat, tool: Value, defect: Defect, s: Trust, now: nat, claims: string -> nat)
    requires Sound(s) && defect == DefectOf(tool, claims)
    ensures DecisionDelivers(p, tool, s, Decide(p, index, tool, defect, s, now))
  {
    GrowsSelf(s);
    if !defect.Withholds() {
      SoundlyNamed(tool, claims);
      var name := NameOf(tool);
      hide DefectOf, RawName, NameOf, DecideChecked, Fingerprint, Description, Park, Sound, Grows, Delivered;
      if name !in p.secret && name !in s.revoked
         && !(p.mode == Enforce && p.suspicious(Description(tool)) && !s.Contains(name)) {
        if p.firstContact == ApproveFirst && !s.Contains(name) {
          ParkGrows(s, tool, now);
        } else {
          DecideCheckedDelivers(p, index, tool, s, now);
        }
      }
    } else {
      hide DefectOf, RawName, NameOf, Sound, Grows;
    }
  }

  lemma GrowsSelf(s: Trust)
    ensures Grows(s, s)
  {
  }

  // ----- the list so far ------------------------------------------------------------------------------------------

  function Out(tools: seq<Value>, g: Progress): seq<Value> {
    g.clean.GetOr(tools)
  }

  ghost predicate AllDelivered(p: Policy, tools: seq<Value>, n: nat, g: Progress)
    requires n <= |tools| == |Out(tools, g)|
  {
    forall i :: 0 <= i < n && i !in g.blocked ==> Delivered(p, g.store, tools[i], Out(tools, g)[i])
  }

  /** Places not reached yet are untouched. */
  ghost predicate Untouched(tools: seq<Value>, n: nat, g: Progress)
    requires |tools| == |Out(tools, g)|
  {
    && (forall i :: n <= i < |tools| ==> i !in g.blocked && Out(tools, g)[i] == tools[i])
    && (forall i :: i in g.blocked ==> i < n)
  }

  lemma {:induction false} AnalyzeDelivers(p: Policy, tools: seq<Value>, n: nat, s: Trust, fails: set<nat>, now: nat)
    requires n <= |tools| && Sound(s)
    ensures var g := Analyze(p, tools, n, s, fails, now);
            && Sound(g.store) && Grows(s, g.store)
            && Untouched(tools, n, g)
            && (!g.failed ==> AllDelivered(p, tools, n, g))
  {
    hide Sound, Grows, Delivered, Decide, TakesFingerprint, DefectOf, NameOf;
    if n == 0 {
      GrowsSelf(s);
    } else {
      AnalyzeDelivers(p, tools, n - 1, s, fails, now);
      var g0 := Analyze(p, tools, n - 1, s, fails, now);
      if !g0.failed {
        var i, defect := n - 1, Defects(tools)[n - 1];
        DecideDelivers(p, i, tools[i], defect, g0.store, now, name => Claims(tools, name));
        var d := Decide(p, i, tools[i], defect, g0.store, now);
        GrowsTransitive(s, g0.store, d.store);
        RecordDelivers(p, tools, i, g0, d);
        hide Defects;
      }
    }
  }

  lemma RecordDelivers(p: Policy, tools: seq<Value>, i: nat, g: Progress, d: Decision)
    requires i < |tools| == |Out(tools, g)| && !g.failed
    requires AllDelivered(p, tools, i, g) && Untouched(tools, i, g) && Grows(g.store, d.store)
    requires d.replacement.Some? ==> !d.withheld
    requires !d.withheld ==> Delivered(p, d.store, tools[i], d.replacement.GetOr(tools[i]))
    ensures AllDelivered(p, tools, i + 1, Record(tools, i, g, d)) && Untouched(tools, i + 1, Record(tools, i, g, d))
  {
    hide Delivered, Grows;
    var g' := Record(tools, i, g, d);
    forall j | 0 <= j < i + 1 && j !in g'.blocked ensures Delivered(p, g'.store, tools[j], Out(tools, g')[j]) {
      if j < i {
        DeliveredPersists(p, g.store, d.store, tools[j], Out(tools, g)[j]);
      }
    }
  }

  // ----- enforce mode keeps the store clean -----------------------------------------------------------------------

  /** Nothing suspicious is trusted, or waits to be. */
  predicate CleanEntries(scan: string -> bool, entries: map<string, Entry>) {
    forall name :: name in entries ==> !scan(Description(entries[name].tool))
  }

  predicate Clean(scan: string -> bool, s: Trust) {
    CleanEntries(scan, s.tools) && CleanEntries(scan, s.pending)
  }

  lemma DecideClean(p: Policy, index: nat, tool: Value, defect: Defect, s: Trust, now: nat)
    requires p.mode == Enforce && Clean(p.suspicious, s)
    ensures Clean(p.suspicious, Decide(p, index, tool, defect, s, now).store)
  {
    hide RawName, Fingerprint, Description, NameOf;
  }

  lemma {:induction false} AnalyzeClean(p: Policy, tools: seq<Value>, n: nat, s: Trust, fails: set<nat>, now: nat)
    requires n <= |tools| && p.mode == Enforce && Clean(p.suspicious, s)
    ensures Clean(p.suspicious, Analyze(p, tools, n, s, fails, now).store)
  {
    hide Clean, Decide, Defects, Analyze;
    AnalyzeStart(p, tools, s, fails, now);
    if n > 0 {
      AnalyzeStore(p, tools, n, s, fails, now);
      AnalyzeClean(p, tools, n - 1, s, fails, now);
      var g := Analyze(p, tools, n - 1, s, fails, now);
      DecideClean(p, n - 1, tools[n - 1], Defects(tools)[n - 1], g.store, now);
    }
  }

  lemma AnalyzeStart(p: Policy, tools: seq<Value>, s: Trust, fails: set<nat>, now: nat)
    ensures Analyze(p, tools, 0, s, fails, now) == Start(s)
  {
  }

  lemma AnalyzeStore(p: Policy, tools: seq<Value>, n: nat, s: Trust, fails: set<nat>, now: nat)
    requires 0 < n <= |tools|
    ensures var g, g' := Analyze(p, tools, n - 1, s, fails, now), Analyze(p, tools, n, s, fails, now);
            g'.store == g.store || g'.store == Decide(p, n - 1, tools[n - 1], Defects(tools)[n - 1], g.store, now).store
  {
    hide Decide, TakesFingerprint, Defects, NameOf;
  }

  /** Over a clean store, a delivered tool is bound and clean. */
  lemma DeliveredIsClean(p: Policy, s: Trust, original: Value, out: Value)
    requires p.mode == Enforce && Delivered(p, s, original, out) && Clean(p.suspicious, s)
    ensures Bound(s, out) && !p.suspicious(Description(out))
  {
    hide RawName, Fingerprint, Description;
  }

  // ----- no name twice -----------------------------------------------------------------------------------------------

  lemma {:induction false} ClaimsOne(tools: seq<Value>, name: string, i: nat)
    requires i < |tools| && TrimmedName(tools[i]) == Some(name)
    ensures Claims(tools, name) >= 1
  {
    hide TrimmedName;
    if i > 0 { ClaimsOne(tools[1..], name, i - 1); }
  }

  lemma {:induction false} ClaimsTwo(tools: seq<Value>, name: string, i: nat, j: nat)
    requires i < j < |tools| && TrimmedName(tools[i]) == TrimmedName(tools[j]) == Some(name)
    ensures Claims(tools, name) >= 2
  {
    hide TrimmedName;
    if i > 0 { ClaimsTwo(tools[1..], name, i - 1, j - 1); } else { ClaimsOne(tools[1..], name, j - 1); }
  }

  lemma SoundNamesDistinct(tools: seq<Value>, i: nat, j: nat)
    requires i < j < |tools| && !Defects(tools)[i].Withholds() && !Defects(tools)[j].Withholds()
    ensures RawName(tools[i]) != RawName(tools[j]) && TrimmedName(tools[i]) != TrimmedName(tools[j])
  {
    hide RawName, Trim, ByteLen, Get;
    var name := TrimmedName(tools[i]);
    assert name.Some?;
    if TrimmedName(tools[j]) == name {
      ClaimsTwo(tools, name.value, i, j);
    }
  }

  lemma {:induction false} FlawedBlocked(p: Policy, tools: seq<Value>, n: nat, s: Trust, fails: set<nat>, now: nat, i: nat)
    requires i < n <= |tools| && Defects(tools)[i].Withholds() && !Analyze(p, tools, n, s, fails, now).failed
    ensures i in Analyze(p, tools, n, s, fails, now).blocked
  {
    hide DecideSound, TakesFingerprint, DefectOf, NameOf, Defects;
    if i < n - 1 {
      FlawedBlocked(p, tools, n - 1, s, fails, now, i);
    }
  }

  // ----- the ledger ------------------------------------------------------------------------------------------------------

  /** A held-back event is true of the list as it stands: it claims an enforcement exactly when its
      action is one, and the enforcement is the one that was made. */
  ghost predicate EventTrue(tools: seq<Value>, g: Progress, e: Event)
    requires |tools| == |Out(tools, g)|
  {
    && e.index < |tools|
    && (e.claimsEnforcement <==> e.action.Withholds() || e.action.Restores())
    && e.action != NotEnforced
    && (e.action.Withholds() ==> e.index in g.blocked)
    && (e.action.Restores() ==>
          && e.index !in g.blocked && g.clean.Some?
          && NameOf(tools[e.index]) in g.store.tools
          && Out(tools, g)[e.index] == g.store.tools[NameOf(tools[e.index])].tool)
  }

  /** Every place that was withheld or changed is reported, except where the boundary answers itself. */
  ghost predicate PlaceReported(p: Policy, tools: seq<Value>, g: Progress, i: nat)
    requires i < |tools| == |Out(tools, g)|
  {
    && (i in g.blocked ==>
          NameOf(tools[i]) in p.secret || exists e :: e in g.deferred && e.index == i && e.action.Withholds())
    && (Out(tools, g)[i] != tools[i] ==>
          exists e :: e in g.deferred && e.index == i && e.action == Rewritten)
  }

  ghost predicate LedgerTrue(p: Policy, tools: seq<Value>, n: nat, g: Progress)
    requires n <= |tools| == |Out(tools, g)|
  {
    && (forall e :: e in g.deferred ==> EventTrue(tools, g, e) && (!g.failed ==> e.index < n))
    && (forall i :: 0 <= i < n && !g.failed ==> PlaceReported(p, tools, g, i))
  }

  /** The events of one decision speak of its own place, and match what it decides. */
  ghost predicate DecisionTrue(p: Policy, index: nat, tool: Value, d: Decision) {
    && (forall e :: e in d.events ==>
          && e.index == index && e.action != NotEnforced
          && (e.claimsEnforcement <==> e.action.Withholds() || e.action.Restores())
          && (e.action.Withholds() ==> d.withheld)
          && (e.action.Restores() ==> d.replacement.Some?))
    && (d.withheld ==> NameOf(tool) in p.secret || exists e :: e in d.events && e.action.Withholds())
    && (d.replacement.Some? ==> exists e :: e in d.events && e.action == Rewritten)
  }

  lemma DecideCheckedTrue(p: Policy, index: nat, tool: Value, s: Trust, now: nat)
    ensures DecisionTrue(p, index, tool, DecideChecked(p, index, tool, s, now))
  {
    hide NameOf, Fingerprint, Description, Check;
    var d := DecideChecked(p, index, tool, s, now);
    if d.replacement.Some? {
      assert d.events[0].action == Rewritten && d.events[0] in d.events;
    }
    if d.withheld {
      assert d.events[|d.events| - 1].action == Blocked && d.events[|d.events| - 1] in d.events;
    }
  }

  lemma DecideTrue(p: Policy, index: nat, tool: Value, defect: Defect, s: Trust, now: nat)
    ensures DecisionTrue(p, index, tool, Decide(p, index, tool, defect, s, now))
  {
    hide NameOf, Fingerprint, Description, DecideChecked, Park;
    DecideCheckedTrue(p, index, tool, s, now);
    if defect.Withholds() {
      OneEventTrue(p, index, tool, DecideFlawed(index, tool, s));
    } else {
      DecideSoundTrue(p, index, tool, s, now);
      hide DecideSound, DecideFlawed;
      var d := DecideSound(p, index, tool, s, now);
      if defect == NoInputSchema {
        var e := Event(ToolMalformed, index, NameOf(tool), Analysed, false);
        assert forall x :: x in [e] + d.events <==> x == e || x in d.events;
      }
    }
  }

  lemma DecideSoundTrue(p: Policy, index: nat, tool: Value, s: Trust, now: nat)
    requires DecisionTrue(p, index, tool, DecideChecked(p, index, tool, s, now))
    ensures DecisionTrue(p, index, tool, DecideSound(p, index, tool, s, now))
  {
    hide NameOf, Fingerprint, Description, DecideChecked, Park, DecisionTrue;
    var d := DecideSound(p, index, tool, s, now);
    if d != DecideChecked(p, index, tool, s, now) {
      OneEventTrue(p, index, tool, d);
    }
  }

  lemma OneEventTrue(p: Policy, index: nat, tool: Value, d: Decision)
    requires d.withheld && d.replacement.None?
    requires || (NameOf(tool) in p.secret && d.events == [])
             || (|d.events| == 1 && d.events[0].index == index && d.events[0].action.Withholds() && d.events[0].claimsEnforcement)
    ensures DecisionTrue(p, index, tool, d)
  {
    hide NameOf;
    if d.events != [] { assert d.events[0] in d.events; }
  }

  lemma {:induction false} AnalyzeReportsTruly(p: Policy, tools: seq<Value>, n: nat, s: Trust, fails: set<nat>, now: nat)
    requires n <= |tools| && Sound(s)
    ensures LedgerTrue(p, tools, n, Analyze(p, tools, n, s, fails, now))
  {
    hide Sound, Grows, Delivered, Decide, TakesFingerprint, DefectOf, NameOf;
    if n > 0 {
      AnalyzeReportsTruly(p, tools, n - 1, s, fails, now);
      AnalyzeDelivers(p, tools, n - 1, s, fails, now);
      var g0 := Analyze(p, tools, n - 1, s, fails, now);
      if !g0.failed {
        var i, defect := n - 1, Defects(tools)[n - 1];
        DecideDelivers(p, i, tools[i], defect, g0.store, now, name => Claims(tools, name));
        var d := Decide(p, i, tools[i], defect, g0.store, now);
        DecideTrue(p, i, tools[i], defect, g0.store, now);
        var g := Analyze(p, tools, n, s, fails, now);
        hide Defects, Analyze;
        if g.failed {
          AbandonTrue(p, tools, i, g0, g, defect);
        } else {
          RecordTrue(p, tools, i, g0, d);
        }
      }
    }
  }

  lemma AbandonTrue(p: Policy, tools: seq<Value>, i: nat, g: Progress, g': Progress, defect: Defect)
    requires i < |tools| == |Out(tools, g)| && !g.failed && LedgerTrue(p, tools, i, g)
    requires g'.failed && g'.(failed := false, deferred := g.deferred) == g
    requires g'.deferred == g.deferred || g'.deferred == g.deferred + [Event(ToolMalformed, i, NameOf(tools[i]), Analysed, false)]
             || g'.deferred == g.deferred + []
    ensures LedgerTrue(p, tools, i + 1, g')
  {
    hide NameOf;
    forall e | e in g'.deferred ensures EventTrue(tools, g', e) {
      if e in g.deferred { assert EventTrue(tools, g, e); }
    }
  }

  lemma RecordEventsTrue(p: Policy, tools: seq<Value>, i: nat, g: Progress, d: Decision, e: Event)
    requires i < |tools| == |Out(tools, g)| && !g.failed && Grows(g.store, d.store)
    requires DecisionTrue(p, i, tools[i], d) && Untouched(tools, i, g)
    requires d.replacement.Some? ==> !d.withheld && NameOf(tools[i]) in d.store.tools
                                     && d.replacement.value == d.store.tools[NameOf(tools[i])].tool
    requires e in d.events || (e in g.deferred && e.index < i && EventTrue(tools, g, e))
    ensures EventTrue(tools, Record(tools, i, g, d), e)
  {
    hide NameOf;
    var g' := Record(tools, i, g, d);
    if e in d.events {
      assert e.index == i;
    } else {
      assert Out(tools, g')[e.index] == Out(tools, g)[e.index];
    }
  }

  lemma RecordPlaceReported(p: Policy, tools: seq<Value>, i: nat, g: Progress, d: Decision, j: nat)
    requires j <= i < |tools| == |Out(tools, g)| && !g.failed
    requires DecisionTrue(p, i, tools[i], d) && Untouched(tools, i, g)
    requires j < i ==> PlaceReported(p, tools, g, j)
    ensures PlaceReported(p, tools, Record(tools, i, g, d), j)
  {
    hide NameOf;
    var g' := Record(tools, i, g, d);
    assert forall e :: e in g'.deferred <==> e in g.deferred || e in d.events;
    if j < i {
      assert Out(tools, g')[j] == Out(tools, g)[j] && (j in g'.blocked <==> j in g.blocked);
    } else {
      assert Out(tools, g)[i] == tools[i];
    }
  }

  lemma RecordTrue(p: Policy, tools: seq<Value>, i: nat, g: Progress, d: Decision)
    requires i < |tools| == |Out(tools, g)| && !g.failed && LedgerTrue(p, tools, i, g)
    requires Grows(g.store, d.store) && DecisionTrue(p, i, tools[i], d) && Untouched(tools, i, g)
    requires d.replacement.Some? ==> !d.withheld && NameOf(tools[i]) in d.store.tools
                                     && d.replacement.value == d.store.tools[NameOf(tools[i])].tool
    ensures LedgerTrue(p, tools, i + 1, Record(tools, i, g, d))
  {
    hide NameOf, Grows, Untouched, EventTrue, PlaceReported;
    var g' := Record(tools, i, g, d);
    forall e | e in g'.deferred ensures EventTrue(tools, g', e) && e.index < i + 1 {
      RecordEventsTrue(p, tools, i, g, d, e);
    }
    forall j | 0 <= j < i + 1 ensures PlaceReported(p, tools, g', j) {
      RecordPlaceReported(p, tools, i, g, d, j);
    }
  }
}
