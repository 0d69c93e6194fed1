/** One tools/list exchange (proxy.rs): what each advertised tool comes to, what the agent receives,
    and what the ledger says about it.

    The sanitizer is a parameter, as is the set of tool names the secret boundary answers for. */
module Enforcement {
  import opened Wrappers
  import opened Text
  import opened Json
  import opened Baseline

  const MAX_TOOL_NAME_LENGTH := 128

  datatype Mode = Monitor | Enforce
  datatype FirstContact = TrustFirst | ApproveFirst

  /** `secret` names the tools of the secret boundary and `descriptors` is how it advertises them;
      both are empty when no boundary is configured. */
  datatype Policy = Policy(
    mode: Mode,
    firstContact: FirstContact,
    suspicious: string -> bool,
    secret: set<string>,
    descriptors: seq<Value>)

  // ----- defects -------------------------------------------------------------------------------------------

  datatype Defect = Fine | NotAnObject | NoName | NameTooLong | DuplicateName | OpaqueDescription | NoInputSchema {
    /** All but a missing input schema mean the tool cannot be vouched for. */
    predicate Withholds() {
      this != Fine && this != NoInputSchema
    }
  }

  function TrimmedName(tool: Value): Option<string> {
    var name := RawName(tool);
    if name.None? || Trim(name.value) == "" then None else Some(Trim(name.value))
  }

  /** How many of the tools claim a trimmed name. */
  function Claims(tools: seq<Value>, name: string): nat {
    if tools == [] then 0
    else (if TrimmedName(tools[0]) == Some(name) then 1 else 0) + Claims(tools[1..], name)
  }

  function DefectOf(tool: Value, claims: string -> nat): Defect {
    if !tool.Obj? then NotAnObject
    else
      var name := TrimmedName(tool);
      if name.None? then NoName
      else if ByteLen(name.value) > MAX_TOOL_NAME_LENGTH then NameTooLong
      else if claims(name.value) > 1 then DuplicateName
      else if Get(tool, "description").Some? && !Get(tool, "description").value.Str? then OpaqueDescription
      else if Get(tool, "inputSchema").None? || !Get(tool, "inputSchema").value.Obj? then NoInputSchema
      else Fine
  }

  function Defects(tools: seq<Value>): (r: seq<Defect>)
    ensures |r| == |tools|
  {
    seq(|tools|, i requires 0 <= i < |tools| => DefectOf(tools[i], name => Claims(tools, name)))
  }

  /** `inspect_tool_entries`: count the names, then look at every tool by itself. */
  method InspectToolEntries(tools: seq<Value>) returns (defects: seq<Defect>)
    ensures defects == Defects(tools)
  {
    hide TrimmedName, RawName, ByteLen;
    var counts: map<string, nat> := map[];
    var i := 0;
    while i < |tools|
      invariant i <= |tools|
      invariant forall name :: name in counts ==> counts[name] > 0
      invariant forall name :: Claims(tools, name) == (if name in counts then counts[name] else 0) + Claims(tools[i..], name)
    {
      var name := TrimmedName(tools[i]);
      assert tools[i..][1..] == tools[i + 1..];
      if name.Some? {
        counts := counts[name.value := (if name.value in counts then counts[name.value] else 0) + 1];
      }
      i := i + 1;
    }
    defects := [];
    i := 0;
    while i < |tools|
      invariant i <= |tools| && |defects| == i
      invariant forall j :: 0 <= j < i ==> defects[j] == DefectOf(tools[j], name => Claims(tools, name))
    {
      defects := defects + [Inspect(tools[i], counts)];
      assert Inspect(tools[i], counts) == DefectOf(tools[i], name => Claims(tools, name));
      i := i + 1;
    }
  }

  function Inspect(tool: Value, counts: map<string, nat>): Defect {
    DefectOf(tool, name => if name in counts then counts[name] else 0)
  }

  // ----- the ledger ------------------------------------------------------------------------------------------

  datatype EventKind =
    | ToolMalformed | ToolRevoked | SuspiciousDescription | ToolPendingApproval | BaselineRegistered | SchemaMismatch

  datatype Action =
    | NoAction | Analysed | Reported | Forwarded | NotEnforced
    | WithheldMalformed | WithheldRevoked | WithheldPending | BlockedFirstContact | Blocked
    | Rewritten | RestoredBaseline
  {
    predicate Withholds() {
      this in {WithheldMalformed, WithheldRevoked, WithheldPending, BlockedFirstContact, Blocked}
    }

    predicate Restores() {
      this in {Rewritten, RestoredBaseline}
    }
  }

  /** A detection about the tool at one place of the advertised list. */
  datatype Event = Event(kind: EventKind, index: nat, tool: string, action: Action, claimsEnforcement: bool)

  function Corrected(e: Event, applied: bool): Event {
    if e.claimsEnforcement && !applied then e.(action := NotEnforced) else e
  }

  /** `emit_deferred` */
  function Emit(deferred: seq<Event>, applied: bool): (r: seq<Event>)
    ensures |r| == |deferred| && forall i :: 0 <= i < |r| ==> r[i] == Corrected(deferred[i], applied)
  {
    seq(|deferred|, i requires 0 <= i < |deferred| => Corrected(deferred[i], applied))
  }

  // ----- one tool ----------------------------------------------------------------------------------------------

  /** What one tool came to: the store after it, whether it is withheld or replaced, and the events. */
  datatype Decision = Decision(store: Trust, withheld: bool, replacement: Option<Value>, events: seq<Event>)

  /** A name is needed for every message; a tool without one never reaches the store. */
  function NameOf(tool: Value): string {
    RawName(tool).GetOr("<unnamed>")
  }

  function DecideFlawed(index: nat, tool: Value, s: Trust): Decision {
    Decision(s, true, None, [Event(ToolMalformed, index, NameOf(tool), WithheldMalformed, true)])
  }

  /** The fingerprint comparison and the description sanitizer, for a tool that may be registered. */
  function DecideChecked(p: Policy, index: nat, tool: Value, s: Trust, now: nat): Decision {
    var name, hash := NameOf(tool), Fingerprint(tool);
    var verdict := VerdictOf(s, name, hash);
    var rewrite := verdict.Mismatch? && p.mode == Enforce && !verdict.baseline.tool.Null?;
    var first :=
      match verdict
      case Registered => [Event(BaselineRegistered, index, name, NoAction, false)]
      case Match => []
      case Mismatch(_) => [Event(SchemaMismatch, index, name, if rewrite then Rewritten else Forwarded, rewrite)];
    var flagged := p.suspicious(Description(tool));
    var second :=
      if !flagged then []
      else [Event(SuspiciousDescription, index, name,
                  if p.mode == Monitor then Reported else if rewrite then RestoredBaseline else Blocked,
                  p.mode == Enforce)];
    Decision(Check(s, name, hash, tool, now),
             flagged && p.mode == Enforce && !rewrite,
             if rewrite then Some(verdict.baseline.tool) else None,
             first + second)
  }

  /** A tool without a withholding defect. */
  function DecideSound(p: Policy, index: nat, tool: Value, s: Trust, now: nat): Decision {
    var name := NameOf(tool);
    if name in p.secret then Decision(s, true, None, [])
    else if name in s.revoked then
      Decision(s, true, None, [Event(ToolRevoked, index, name, WithheldRevoked, true)])
    else if p.mode == Enforce && p.suspicious(Description(tool)) && !s.Contains(name) then
      Decision(s, true, None, [Event(SuspiciousDescription, index, name, BlockedFirstContact, true)])
    else if p.firstContact == ApproveFirst && !s.Contains(name) then
      Decision(Park(s, name, Fingerprint(tool), tool, now), true, None,
               [Event(ToolPendingApproval, index, name, WithheldPending, true)])
    else DecideChecked(p, index, tool, s, now)
  }

  function Decide(p: Policy, index: nat, tool: Value, defect: Defect, s: Trust, now: nat): Decision {
    if defect.Withholds() then DecideFlawed(index, tool, s)
    else
      var d := DecideSound(p, index, tool, s, now);
      if defect == NoInputSchema
      then d.(events := [Event(ToolMalformed, index, NameOf(tool), Analysed, false)] + d.events)
      else d
  }

  /** Whether deciding a tool takes its fingerprint, which may fail. */
  predicate TakesFingerprint(p: Policy, tool: Value, defect: Defect, s: Trust) {
    var name := NameOf(tool);
    && !defect.Withholds() && name !in p.secret && name !in s.revoked
    && !(p.mode == Enforce && p.suspicious(Description(tool)) && !s.Contains(name))
  }

  // ----- the whole list ------------------------------------------------------------------------------------------

  /** The analysis so far: the store, the list being rewritten if it is, the places withheld, and the
      events held back. `failed` is set when a fingerprint could not be computed. */
  datatype Progress = Progress(store: Trust, clean: Option<seq<Value>>, blocked: set<nat>, deferred: seq<Event>, failed: bool)

  function Start(s: Trust): Progress {
    Progress(s, None, {}, [], false)
  }

  function Record(tools: seq<Value>, index: nat, g: Progress, d: Decision): Progress
    requires index < |tools| && (g.clean.Some? ==> |g.clean.value| == |tools|)
  {
    Progress(d.store,
             if d.replacement.None? then g.clean else Some(g.clean.GetOr(tools)[index := d.replacement.value]),
             if d.withheld then g.blocked + {index} else g.blocked,
             g.deferred + d.events,
             false)
  }

  /** One turn of the loop. A fingerprint that fails abandons the list, keeping what a missing input
      schema has already reported. */
  function Advance(p: Policy, tools: seq<Value>, index: nat, defect: Defect, g: Progress, fails: bool, now: nat): Progress
    requires index < |tools| && (g.clean.Some? ==> |g.clean.value| == |tools|)
  {
    if fails && TakesFingerprint(p, tools[index], defect, g.store) then
      g.(failed := true,
         deferred := g.deferred
                     + (if defect == NoInputSchema then [Event(ToolMalformed, index, NameOf(tools[index]), Analysed, false)]
                        else []))
    else Record(tools, index, g, Decide(p, index, tools[index], defect, g.store, now))
  }

  /** The list up to a place. `fails` says at which places the fingerprint cannot be computed. */
  function Analyze(p: Policy, tools: seq<Value>, n: nat, s: Trust, fails: set<nat>, now: nat): (g: Progress)
    requires n <= |tools|
    ensures g.clean.Some? ==> |g.clean.value| == |tools|
  {
    if n == 0 then Start(s)
    else
      var g := Analyze(p, tools, n - 1, s, fails, now);
      if g.failed then g
      else Advance(p, tools, n - 1, Defects(tools)[n - 1], g, n - 1 in fails, now)
  }

  /** The entries of a list at the places that are not withheld. */
  function Unblocked(tools: seq<Value>, blocked: set<nat>, from: nat): seq<Value>
    requires from <= |tools|
    decreases |tools| - from
  {
    if from == |tools| then []
    else (if from in blocked then [] else [tools[from]]) + Unblocked(tools, blocked, from + 1)
  }

  function SetMember(members: seq<Member>, key: string, v: Value): seq<Member> {
    if members == [] then [Member(key, v)]
    else if members[0].key == key then [Member(key, v)] + members[1..]
    else [members[0]] + SetMember(members[1..], key, v)
  }

  /** `rebuild_response`: the result with its tools replaced. */
  function Rebuild(result: Value, tools: seq<Value>): Option<Value> {
    if result.Obj? then Some(Obj(SetMember(result.members, "tools", Arr(tools)))) else None
  }

  /** What one exchange did: the store and the file after it, what the agent is sent, and the ledger.
      `result` is the result object of the line that is forwarded. */
  datatype Exchange =
    | Malformed
    | Failed(store: Trust, events: seq<Event>)
    | Analyzed(store: Trust, disk: Option<DiskText>, rewritten: Option<Value>, events: seq<Event>)

  function AdvertisedTools(result: Option<Value>): Option<seq<Value>> {
    if result.None? then None
    else
      var tools := Get(result.value, "tools");
      if tools.Some? && tools.value.Arr? then Some(tools.value.items) else None
  }

  function Finish(p: Policy, result: Value, tools: seq<Value>, g: Progress, disk: Option<DiskText>,
                  writeOk: bool, spelling: nat): Exchange
    requires g.clean.Some? ==> |g.clean.value| == |tools|
  {
    if g.failed then Failed(g.store, Emit(g.deferred, false))
    else
      var enforced := g.clean.Some? || g.blocked != {};
      var rebuilt := Rebuild(result, Unblocked(g.clean.GetOr(tools), g.blocked, 0) + p.descriptors);
      if (enforced || p.descriptors != []) && rebuilt.None? then Failed(g.store, Emit(g.deferred, false))
      else
        var rewritten := if enforced || p.descriptors != [] then rebuilt else None;
        var saved := g.store.dirty && writeOk;
        var store := if saved then Saved(g.store, spelling) else g.store;
        Analyzed(store, if saved then store.digest else disk, rewritten,
                 Emit(g.deferred, enforced && rewritten.Some?))
  }

  /** The whole exchange, under the lock. */
  function AnalyzeToolsList(p: Policy, result: Option<Value>, s: Trust, disk: Option<DiskText>, fails: set<nat>,
                            writeOk: bool, spelling: nat, now: nat): Exchange {
    var tools := AdvertisedTools(result);
    if tools.None? then Malformed
    else
      var g := Analyze(p, tools.value, |tools.value|, Reload(s, disk), fails, now);
      Finish(p, result.value, tools.value, g, disk, writeOk, spelling)
  }

  /** The result the agent receives. */
  function Received(result: Value, x: Exchange): Value {
    if x.Analyzed? && x.rewritten.Some? then x.rewritten.value else result
  }
}
