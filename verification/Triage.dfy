/** Incident triage (incident-store.ts): what a transition request must be, and the append-only trail that
    accounts for the state it leaves. */
module Triage {
  import opened Wrappers
  import opened Json

  // ----- text fields --------------------------------------------------------------------------------------------

  /** White space and line terminators as `String.prototype.trim` removes them. */
  predicate IsBlank(c: char) {
    var n := c as int;
    || 0x09 <= n <= 0x0D || n == 0x20 || n == 0xA0 || n == 0x1680 || 0x2000 <= n <= 0x200A
    || n == 0x2028 || n == 0x2029 || n == 0x202F || n == 0x205F || n == 0x3000 || n == 0xFEFF
  }

  function DropStart(s: string): (r: string)
    ensures r != "" ==> !IsBlank(r[0])
    ensures |r| <= |s|
  {
    if s != "" && IsBlank(s[0]) then DropStart(s[1..]) else s
  }

  function DropEnd(s: string): (r: string)
    ensures r <= s
    ensures r != "" ==> !IsBlank(r[|r| - 1])
  {
    if s != "" && IsBlank(s[|s| - 1]) then DropEnd(s[..|s| - 1]) else s
  }

  function Trimmed(s: string): (r: string)
    ensures r != "" ==> !IsBlank(r[0]) && !IsBlank(r[|r| - 1])
  {
    DropEnd(DropStart(s))
  }

  /** A string's length in UTF-16 code units. */
  function Length(s: string): nat {
    if s == "" then 0 else (if s[0] as int >= 0x10000 then 2 else 1) + Length(s[1..])
  }

  datatype Refusal =
    | NotAnObject
    | NotText
    | TooLong
    | NotAUuid
    | UnknownStatus
    | NoActor
    | UnknownResolution
    | NeedsResolution
    | ResolutionNotAllowed
    | TwoAssignees

  /** `text`: absent, null and blank all mean nothing was supplied. */
  function TextField(value: Option<Value>, max: nat): Result<Option<string>, Refusal> {
    if value.None? || value.value.Null? || value.value == Str("") then Ok(None)
    else if !value.value.Str? then Err(NotText)
    else
      var trimmed := Trimmed(value.value.s);
      if trimmed == "" then Ok(None)
      else if Length(trimmed) > max then Err(TooLong)
      else Ok(Some(trimmed))
  }

  predicate AllBlank(s: string) {
    forall c :: c in s ==> IsBlank(c)
  }

  /** The part of a text between its blanks. */
  ghost predicate Between(s: string, part: string) {
    exists before, after ::
      s == before + part + after && AllBlank(before) && AllBlank(after)
      && (part != "" ==> !IsBlank(part[0]) && !IsBlank(part[|part| - 1]))
  }

  lemma {:induction false} StartIsDropped(s: string) returns (before: string)
    ensures s == before + DropStart(s) && AllBlank(before)
  {
    if s != "" && IsBlank(s[0]) {
      var rest := StartIsDropped(s[1..]);
      before := [s[0]] + rest;
    } else {
      before := "";
    }
  }

  lemma {:induction false} EndIsDropped(s: string) returns (after: string)
    ensures s == DropEnd(s) + after && AllBlank(after)
  {
    if s != "" && IsBlank(s[|s| - 1]) {
      var rest := EndIsDropped(s[..|s| - 1]);
      after := rest + [s[|s| - 1]];
    } else {
      after := "";
    }
  }

  /** Only blanks surround a non-blank part, so there is one such part at most. */
  lemma BetweenIsUnique(s: string, part: string, other: string)
    requires Between(s, part) && Between(s, other) && part != ""
    ensures part == other
  {
    var b, e := PartAt(s, part);
    var b', e' := PartAt(s, other);
    assert s[b] == part[0] && s[e - 1] == part[|part| - 1];
    assert other != "" ==> s[b'] == other[0] && s[e' - 1] == other[|other| - 1];
  }

  lemma PartAt(s: string, part: string) returns (b: nat, e: nat)
    requires Between(s, part)
    ensures b <= e <= |s| && part == s[b..e]
    ensures forall i :: 0 <= i < |s| && (i < b || e <= i) ==> IsBlank(s[i])
  {
    var before, after :| s == before + part + after && AllBlank(before) && AllBlank(after);
    b, e := |before|, |before| + |part|;
    hide IsBlank;
    forall i | 0 <= i < |s| && (i < b || e <= i) ensures IsBlank(s[i]) {
      assert s[i] in before || s[i] in after;
    }
  }

  lemma TrimmedIsBetween(s: string)
    ensures Between(s, Trimmed(s))
  {
    var before := StartIsDropped(s);
    var after := EndIsDropped(DropStart(s));
    assert s == before + Trimmed(s) + after;
  }

  /** A field supplies a text exactly when it is that text, of at most the allowed length, with nothing but blanks
      around it; it supplies nothing exactly when it is absent, null or blank; and everything else is refused. */
  lemma TextFieldIs(value: Option<Value>, max: nat, text: string)
    ensures TextField(value, max) == Ok(Some(text))
            <==> value.Some? && value.value.Str? && text != "" && Between(value.value.s, text) && Length(text) <= max
    ensures TextField(value, max) == Ok(None)
            <==> value.None? || value.value.Null? || (value.value.Str? && AllBlank(value.value.s))
  {
    hide Length, Trimmed;
    if value.Some? && value.value.Str? {
      var s := value.value.s;
      TrimmedIsBetween(s);
      if text != "" && Between(s, text) { BetweenIsUnique(s, text, Trimmed(s)); }
      if AllBlank(s) {
        assert s == s + "" + "";
        assert Between(s, "");
        if Trimmed(s) != "" { BetweenIsUnique(s, Trimmed(s), ""); }
      }
      if Trimmed(s) == "" {
        var before, after :| s == before + "" + after && AllBlank(before) && AllBlank(after);
        assert AllBlank(s);
      }
    }
  }

  lemma TextFieldKeeps(value: Option<Value>, max: nat)
    requires TextField(value, max).Ok?
    ensures TextField(AsField(TextField(value, max).value), max) == TextField(value, max)
  {
    if value.Some? && value.value.Str? {
      var r := Trimmed(value.value.s);
      assert r != "" ==> DropStart(r) == r && DropEnd(r) == r;
    }
  }

  function AsField(s: Option<string>): Option<Value> {
    if s.None? then None else Some(Str(s.value))
  }

  // ----- transitions --------------------------------------------------------------------------------------------

  datatype Status = New | Acknowledged | Resolved

  datatype Resolution = TruePositive | FalsePositive | Benign | Duplicate

  const MAX_ACTOR: nat := 128
  const MAX_ASSIGNEE: nat := 128
  const MAX_NOTE: nat := 2000

  function StatusText(s: Status): string {
    match s case New => "new" case Acknowledged => "acknowledged" case Resolved => "resolved"
  }

  function ResolutionText(r: Resolution): string {
    match r
    case TruePositive => "true_positive"
    case FalsePositive => "false_positive"
    case Benign => "benign"
    case Duplicate => "duplicate"
  }

  function StatusOf(value: Option<Value>): (s: Option<Status>)
    ensures s.Some? ==> value == Some(Str(StatusText(s.value)))
    ensures forall t :: value == Some(Str(StatusText(t))) ==> s == Some(t)
  {
    if value == Some(Str("new")) then Some(New)
    else if value == Some(Str("acknowledged")) then Some(Acknowledged)
    else if value == Some(Str("resolved")) then Some(Resolved)
    else None
  }

  function ResolutionOf(text: string): (r: Option<Resolution>)
    ensures r.Some? ==> text == ResolutionText(r.value)
    ensures forall t :: text == ResolutionText(t) ==> r == Some(t)
  {
    if text == "true_positive" then Some(TruePositive)
    else if text == "false_positive" then Some(FalsePositive)
    else if text == "benign" then Some(Benign)
    else if text == "duplicate" then Some(Duplicate)
    else None
  }

  predicate IsUuid(s: string) {
    && |s| == 36
    && forall i :: 0 <= i < 36 ==>
         if i == 8 || i == 13 || i == 18 || i == 23 then s[i] == '-'
         else '0' <= s[i] <= '9' || 'a' <= s[i] <= 'f' || 'A' <= s[i] <= 'F'
  }

  datatype Input = Input(
    eventId: Option<Value>, status: Option<Value>, assignee: Option<Value>, assignToMe: Option<Value>,
    note: Option<Value>, resolution: Option<Value>)

  datatype Transition = Transition(
    eventId: string, tenant: string, status: Status, actor: string, assignee: Option<string>, note: Option<string>,
    resolution: Option<Resolution>)

  /** `normalizeTransition`; the actor comes from the credential. A body that is not an object has no fields. */
  function Normalize(body: Option<Input>, actor: string, tenant: string): Result<Transition, Refusal> {
    if body.None? then Err(NotAnObject) else
    var input := body.value;
    var id := TextField(input.eventId, 64);
    if id.Err? then Err(id.error) else
    if id.value.None? || !IsUuid(id.value.value) then Err(NotAUuid) else
    var status := StatusOf(input.status);
    if status.None? then Err(UnknownStatus) else
    var who := TextField(Some(Str(actor)), MAX_ACTOR);
    if who.Err? then Err(who.error) else
    if who.value.None? then Err(NoActor) else
    var verdict := TextField(input.resolution, 32);
    if verdict.Err? then Err(verdict.error) else
    var resolution := if verdict.value.None? then None else ResolutionOf(verdict.value.value);
    if verdict.value.Some? && resolution.None? then Err(UnknownResolution) else
    if status.value == Resolved && resolution.None? then Err(NeedsResolution) else
    if status.value != Resolved && resolution.Some? then Err(ResolutionNotAllowed) else
    var toMe := input.assignToMe == Some(Bool(true));
    var explicit := TextField(input.assignee, MAX_ASSIGNEE);
    if explicit.Err? then Err(explicit.error) else
    if toMe && explicit.value.Some? then Err(TwoAssignees) else
    var note := TextField(input.note, MAX_NOTE);
    if note.Err? then Err(note.error) else
    Ok(Transition(
         id.value.value, tenant, status.value, who.value.value,
         if toMe then Some(who.value.value) else explicit.value, note.value, resolution))
  }

  ghost predicate Supplies(value: Option<Value>, max: nat, text: Option<string>) {
    TextField(value, max) == Ok(text)
  }

  /** The database's own constraint on a triage row. */
  predicate Consistent(status: Status, resolution: Option<Resolution>) {
    status == Resolved <==> resolution.Some?
  }

  /** A request is accepted exactly when some consistent transition is what its fields say. */
  lemma AcceptedExactlyWhen(body: Option<Input>, actor: string, tenant: string, t: Transition)
    ensures Normalize(body, actor, tenant) == Ok(t)
            <==> && body.Some?
                 && t.tenant == tenant
                 && |t.eventId| == 36
                 && (forall i :: 0 <= i < 36 ==>
                       if i in {8, 13, 18, 23} then t.eventId[i] == '-'
                       else '0' <= t.eventId[i] <= '9' || 'a' <= t.eventId[i] <= 'f' || 'A' <= t.eventId[i] <= 'F')
                 && Supplies(body.value.eventId, 64, Some(t.eventId))
                 && body.value.status == Some(Str(StatusText(t.status)))
                 && Supplies(Some(Str(actor)), MAX_ACTOR, Some(t.actor))
                 && Supplies(body.value.resolution, 32, if t.resolution.Some? then Some(ResolutionText(t.resolution.value)) else None)
                 && (t.status == Resolved <==> t.resolution.Some?)
                 && Supplies(body.value.note, MAX_NOTE, t.note)
                 && (if body.value.assignToMe == Some(Bool(true))
                     then Supplies(body.value.assignee, MAX_ASSIGNEE, None) && t.assignee == Some(t.actor)
                     else Supplies(body.value.assignee, MAX_ASSIGNEE, t.assignee))
  {
    UuidIs(t.eventId);
    hide TextField, IsUuid;
  }

  lemma UuidIs(s: string)
    ensures IsUuid(s)
            <==> && |s| == 36
                 && forall i :: 0 <= i < 36 ==>
                      if i in {8, 13, 18, 23} then s[i] == '-'
                      else '0' <= s[i] <= '9' || 'a' <= s[i] <= 'f' || 'A' <= s[i] <= 'F'
  {
  }

  /** The request that spells out an accepted transition. */
  function Spelled(t: Transition): Input {
    Input(
      Some(Str(t.eventId)), Some(Str(StatusText(t.status))), AsField(t.assignee), None, AsField(t.note),
      if t.resolution.None? then None else Some(Str(ResolutionText(t.resolution.value))))
  }

  /** Normalising is a projection: an accepted transition, spelled out as a request, is accepted unchanged. */
  lemma NormalizeProjects(body: Option<Input>, actor: string, tenant: string)
    requires Normalize(body, actor, tenant).Ok?
    ensures var t := Normalize(body, actor, tenant).value;
            Normalize(Some(Spelled(t)), t.actor, tenant) == Ok(t)
  {
    var t := Normalize(body, actor, tenant).value;
    var input := body.value;
    AcceptedExactlyWhen(body, actor, tenant, t);
    TextFieldKeeps(input.eventId, 64);
    TextFieldKeeps(Some(Str(actor)), MAX_ACTOR);
    TextFieldKeeps(input.resolution, 32);
    TextFieldKeeps(input.assignee, MAX_ASSIGNEE);
    TextFieldKeeps(input.note, MAX_NOTE);
    hide TextField, IsUuid, Normalize;
    AcceptedExactlyWhen(Some(Spelled(t)), t.actor, tenant, t);
  }

  // ----- the state and its trail --------------------------------------------------------------------------------

  datatype Triage = Triage(
    status: Status, assignee: Option<string>, note: Option<string>, resolution: Option<Resolution>,
    updatedMs: nat, updatedBy: string)

  datatype Entry = Entry(
    auditId: nat, atMs: nat, actor: string, fromStatus: Option<Status>, toStatus: Status, assignee: Option<string>,
    resolution: Option<Resolution>, note: Option<string>)

  datatype Ledger = Ledger(triage: map<string, Triage>, audit: map<string, seq<Entry>>, lastId: nat)

  const EMPTY := Ledger(map[], map[], 0)

  function Or<T>(a: Option<T>, b: Option<T>): Option<T> {
    if a.Some? then a else b
  }

  function Trail(l: Ledger, id: string): seq<Entry> {
    if id in l.audit then l.audit[id] else []
  }

  function Updated(prev: Option<Triage>, t: Transition, now: nat): Triage {
    Triage(
      t.status,
      Or(t.assignee, if prev.Some? then prev.value.assignee else None),
      Or(t.note, if prev.Some? then prev.value.note else None),
      t.resolution, now, t.actor)
  }

  /** `applyTransition` on a known event. */
  function Applied(l: Ledger, t: Transition, now: nat): Ledger {
    var prev := if t.eventId in l.triage then Some(l.triage[t.eventId]) else None;
    var triage := Updated(prev, t, now);
    var entry := Entry(
      l.lastId + 1, now, t.actor, if prev.Some? then Some(prev.value.status) else None, t.status, triage.assignee,
      t.resolution, t.note);
    Ledger(l.triage[t.eventId := triage], l.audit[t.eventId := [entry] + Trail(l, t.eventId)], l.lastId + 1)
  }

  class Store {
    var triage: map<string, Triage>
    var audit: map<string, seq<Entry>>
    var lastId: nat

    constructor ()
      ensures Value() == EMPTY
    {
      triage, audit, lastId := map[], map[], 0;
    }

    function Value(): Ledger
      reads this
    {
      Ledger(triage, audit, lastId)
    }

    /** `events` holds the tenant and identifier of each stored event. */
    method ApplyTransition(t: Transition, events: set<(string, string)>, now: nat) returns (r: Option<Triage>)
      modifies this
      ensures r.Some? <==> (t.tenant, t.eventId) in events
      ensures r.None? ==> Value() == old(Value())
      ensures r.Some? ==> Value() == Applied(old(Value()), t, now) && r.value == Value().triage[t.eventId]
    {
      if (t.tenant, t.eventId) !in events {
        return None;
      }
      var id := t.eventId;
      var next := Triage(t.status, t.assignee, t.note, t.resolution, now, t.actor);
      var from: Option<Status> := None;
      if id in triage {
        var prev := triage[id];
        from := Some(prev.status);
        if next.assignee.None? { next := next.(assignee := prev.assignee); }
        if next.note.None? { next := next.(note := prev.note); }
      }
      triage := triage[id := next];
      lastId := lastId + 1;
      var entry := Entry(lastId, now, t.actor, from, t.status, next.assignee, t.resolution, t.note);
      audit := audit[id := [entry] + if id in audit then audit[id] else []];
      return Some(next);
    }
  }

  // ----- what the trail tells -----------------------------------------------------------------------------------

  function LatestNote(trail: seq<Entry>): Option<string> {
    if trail == [] then None else Or(trail[0].note, LatestNote(trail[1..]))
  }

  /** The state a trail accounts for. */
  function Told(trail: seq<Entry>): Triage
    requires trail != []
  {
    Triage(
      trail[0].toStatus, trail[0].assignee, LatestNote(trail), trail[0].resolution, trail[0].atMs, trail[0].actor)
  }

  /** Newest first: identifiers fall, statuses chain, and an assignee once set never silently vanishes. */
  ghost predicate Chained(trail: seq<Entry>, lastId: nat) {
    trail != [] ==>
      && 0 < trail[0].auditId <= lastId
      && Consistent(trail[0].toStatus, trail[0].resolution)
      && (|trail| == 1 ==> trail[0].fromStatus == None)
      && (|trail| > 1 ==>
            && trail[0].fromStatus == Some(trail[1].toStatus)
            && trail[1].auditId < trail[0].auditId
            && (trail[1].assignee.Some? ==> trail[0].assignee.Some?))
      && Chained(trail[1..], trail[0].auditId)
  }

  ghost predicate TrailTells(l: Ledger) {
    && l.triage.Keys == l.audit.Keys
    && (forall id :: id in l.audit ==>
          l.audit[id] != [] && Chained(l.audit[id], l.lastId) && l.triage[id] == Told(l.audit[id]))
  }

  lemma ChainedLater(trail: seq<Entry>, lastId: nat, later: nat)
    requires Chained(trail, lastId) && lastId <= later
    ensures Chained(trail, later)
  {
  }

  lemma ApplyKeepsTrailTelling(l: Ledger, t: Transition, now: nat)
    requires TrailTells(l) && Consistent(t.status, t.resolution)
    ensures TrailTells(Applied(l, t, now))
  {
    hide Chained, Told;
    var next := Applied(l, t, now);
    ApplyChains(l, t, now);
    ApplyTells(l, t, now);
    forall id | id in next.audit
      ensures next.audit[id] != [] && Chained(next.audit[id], next.lastId) && next.triage[id] == Told(next.audit[id])
    {
      if id != t.eventId {
        ChainedLater(l.audit[id], l.lastId, next.lastId);
      }
    }
  }

  lemma ApplyChains(l: Ledger, t: Transition, now: nat)
    requires TrailTells(l) && Consistent(t.status, t.resolution)
    ensures Chained(Applied(l, t, now).audit[t.eventId], l.lastId + 1)
  {
    var trail := Applied(l, t, now).audit[t.eventId];
    assert trail[1..] == Trail(l, t.eventId);
  }

  lemma ApplyTells(l: Ledger, t: Transition, now: nat)
    requires TrailTells(l)
    ensures var next := Applied(l, t, now);
            next.triage[t.eventId] == Told(next.audit[t.eventId])
  {
    hide Chained;
    var trail := Applied(l, t, now).audit[t.eventId];
    assert trail[1..] == Trail(l, t.eventId);
    assert LatestNote(trail) == Or(t.note, LatestNote(Trail(l, t.eventId)));
    if t.eventId in l.audit {
      assert l.triage[t.eventId] == Told(l.audit[t.eventId]);
    } else {
      assert LatestNote([]) == None;
    }
  }

  // ----- runs ---------------------------------------------------------------------------------------------------

  datatype Request = Request(body: Option<Input>, actor: string, tenant: string, known: bool, now: nat)

  /** One request through validation and storage; anything refused changes nothing. */
  function Handle(l: Ledger, r: Request): Ledger {
    var t := Normalize(r.body, r.actor, r.tenant);
    if t.Ok? && r.known then Applied(l, t.value, r.now) else l
  }

  function Run(l: Ledger, requests: seq<Request>): Ledger
    decreases |requests|
  {
    if requests == [] then l else Run(Handle(l, requests[0]), requests[1..])
  }

  lemma HandleKeepsTrailTelling(l: Ledger, r: Request)
    requires TrailTells(l)
    ensures TrailTells(Handle(l, r))
  {
    hide TrailTells, Normalize, Applied;
    var t := Normalize(r.body, r.actor, r.tenant);
    if t.Ok? {
      AcceptedExactlyWhen(r.body, r.actor, r.tenant, t.value);
      if r.known {
        ApplyKeepsTrailTelling(l, t.value, r.now);
      }
    }
  }

  /** Over every run the trail of an incident determines its state. */
  lemma {:induction false} TrailDeterminesState(l: Ledger, requests: seq<Request>)
    requires TrailTells(l)
    ensures TrailTells(Run(l, requests))
    decreases |requests|
  {
    hide TrailTells, Handle;
    if requests != [] {
      HandleKeepsTrailTelling(l, requests[0]);
      TrailDeterminesState(Handle(l, requests[0]), requests[1..]);
    }
  }

  /** An accepted transition and the time of its request. */
  datatype Taken = Taken(t: Transition, atMs: nat)

  /** What one request adds to an incident. */
  function TakenOf(r: Request, id: string): seq<Taken> {
    var t := Normalize(r.body, r.actor, r.tenant);
    if t.Ok? && r.known && t.value.eventId == id then [Taken(t.value, r.now)] else []
  }

  /** The accepted transitions of one incident, newest first. */
  function Accepted(requests: seq<Request>, id: string): seq<Taken> {
    if requests == [] then [] else TakenOf(requests[|requests| - 1], id) + Accepted(requests[..|requests| - 1], id)
  }

  lemma {:induction false} RunLast(l: Ledger, requests: seq<Request>)
    requires requests != []
    ensures Run(l, requests) == Handle(Run(l, requests[..|requests| - 1]), requests[|requests| - 1])
    decreases |requests|
  {
    hide Handle;
    var init := requests[..|requests| - 1];
    if |requests| > 1 {
      RunLast(Handle(l, requests[0]), requests[1..]);
      assert init[1..] == requests[1..][..|requests| - 2];
    }
  }

  /** The latest value supplied from a place on, if any was. */
  ghost predicate Latest(supplied: seq<Option<string>>, i: nat, value: Option<string>) {
    if value.None? then forall j :: i <= j < |supplied| ==> supplied[j] == None
    else exists j :: i <= j < |supplied| && supplied[j] == value && forall k :: i <= k < j ==> supplied[k] == None
  }

  function Assignees(ts: seq<Taken>): seq<Option<string>> {
    seq(|ts|, i requires 0 <= i < |ts| => ts[i].t.assignee)
  }

  function Notes(ts: seq<Taken>): seq<Option<string>> {
    seq(|ts|, i requires 0 <= i < |ts| => ts[i].t.note)
  }

  lemma LatestFirst(first: Option<string>, rest: seq<Option<string>>, value: Option<string>)
    requires Latest(rest, 0, value)
    ensures Latest([first] + rest, 0, Or(first, value))
  {
    var all := [first] + rest;
    if first.Some? {
      assert all[0] == first;
    } else if value.Some? {
      var j :| 0 <= j < |rest| && rest[j] == value && forall k :: 0 <= k < j ==> rest[k] == None;
      assert all[j + 1] == value && forall k :: 0 <= k < j + 1 ==> all[k] == None;
    }
  }

  lemma LatestLater(first: Option<string>, rest: seq<Option<string>>, i: nat, value: Option<string>)
    requires Latest(rest, i, value)
    ensures Latest([first] + rest, i + 1, value)
  {
    var all := [first] + rest;
    assert forall j :: 0 <= j < |rest| ==> all[j + 1] == rest[j];
    if value.Some? {
      var j :| i <= j < |rest| && rest[j] == value && forall k :: i <= k < j ==> rest[k] == None;
      forall k | i + 1 <= k < j + 1 ensures all[k] == None {
        assert all[k] == rest[k - 1];
      }
      assert all[j + 1] == value;
    }
  }

  /** One entry against the transition it records and those before it. */
  ghost predicate Records(e: Entry, ts: seq<Taken>, i: nat)
    requires i < |ts|
  {
    && e.actor == ts[i].t.actor && e.atMs == ts[i].atMs
    && e.toStatus == ts[i].t.status && e.resolution == ts[i].t.resolution && e.note == ts[i].t.note
    && e.fromStatus == (if i + 1 < |ts| then Some(ts[i + 1].t.status) else None)
    && Latest(Assignees(ts), i, e.assignee)
  }

  /** A state and a trail against the transitions alone. */
  ghost predicate Accounts(ts: seq<Taken>, triage: Option<Triage>, trail: seq<Entry>) {
    && |trail| == |ts|
    && (forall i :: 0 <= i < |ts| ==> Records(trail[i], ts, i))
    && (triage.Some? <==> ts != [])
    && (triage.Some? ==>
          && triage.value.status == ts[0].t.status && triage.value.resolution == ts[0].t.resolution
          && triage.value.updatedBy == ts[0].t.actor && triage.value.updatedMs == ts[0].atMs
          && Latest(Assignees(ts), 0, triage.value.assignee) && Latest(Notes(ts), 0, triage.value.note))
  }

  function Found(l: Ledger, id: string): Option<Triage> {
    if id in l.triage then Some(l.triage[id]) else None
  }

  lemma RecordsLater(e: Entry, first: Taken, ts: seq<Taken>, i: nat)
    requires i < |ts| && Records(e, ts, i)
    ensures Records(e, [first] + ts, i + 1)
  {
    LatestLater(first.t.assignee, Assignees(ts), i, e.assignee);
    hide Latest;
    assert Assignees([first] + ts) == [first.t.assignee] + Assignees(ts);
  }

  lemma NothingSupplied()
    ensures Latest([], 0, None)
  {
  }

  lemma ApplyAccounts(l: Ledger, t: Transition, now: nat, ts: seq<Taken>)
    requires Accounts(ts, Found(l, t.eventId), Trail(l, t.eventId))
    ensures var next := Applied(l, t, now);
            Accounts([Taken(t, now)] + ts, Found(next, t.eventId), Trail(next, t.eventId))
  {
    var next, first := Applied(l, t, now), Taken(t, now);
    var prev, trail, all := Found(l, t.eventId), Trail(l, t.eventId), [first] + ts;
    NothingSupplied();
    assert Latest(Assignees(ts), 0, if prev.Some? then prev.value.assignee else None);
    assert Latest(Notes(ts), 0, if prev.Some? then prev.value.note else None);
    LatestFirst(t.assignee, Assignees(ts), if prev.Some? then prev.value.assignee else None);
    LatestFirst(t.note, Notes(ts), if prev.Some? then prev.value.note else None);
    assert Assignees(all) == [t.assignee] + Assignees(ts) && Notes(all) == [t.note] + Notes(ts);
    hide Latest, Assignees, Notes;
    forall i | 0 <= i < |ts| ensures Records(trail[i], all, i + 1) {
      RecordsLater(trail[i], first, ts, i);
    }
    var after := Trail(next, t.eventId);
    assert after[1..] == trail && all[1..] == ts;
    assert Records(after[0], all, 0);
    hide Records;
    forall i | 0 <= i < |all| ensures Records(after[i], all, i) {
      assert i > 0 ==> after[i] == trail[i - 1];
    }
  }

  /** In every run from an empty ledger, what an incident is and what its trail says follow from the accepted requests
      alone: it is in the state of the latest one, under the latest assignee and the latest note that any supplied; and
      there is one entry for each, newest first, with the status before it and the latest assignee up to it. */
  lemma {:induction false} RequestsAccountForTheTrail(requests: seq<Request>, id: string)
    ensures var l := Run(EMPTY, requests);
            Accounts(Accepted(requests, id), Found(l, id), Trail(l, id))
    decreases |requests|
  {
    if requests == [] {
      assert Run(EMPTY, requests) == EMPTY;
    } else {
      var init, r := requests[..|requests| - 1], requests[|requests| - 1];
      RequestsAccountForTheTrail(init, id);
      hide Normalize, Accounts, Run, Handle, TakenOf;
      RunLast(EMPTY, requests);
      HandleAccounts(Run(EMPTY, init), r, Accepted(init, id), id);
    }
  }

  lemma HandleAccounts(l: Ledger, r: Request, ts: seq<Taken>, id: string)
    requires Accounts(ts, Found(l, id), Trail(l, id))
    ensures Accounts(TakenOf(r, id) + ts, Found(Handle(l, r), id), Trail(Handle(l, r), id))
  {
    var t := Normalize(r.body, r.actor, r.tenant);
    hide Normalize, Accounts;
    if TakenOf(r, id) == [] {
      assert [] + ts == ts;
      assert Found(Handle(l, r), id) == Found(l, id) && Trail(Handle(l, r), id) == Trail(l, id);
    } else {
      ApplyAccounts(l, t.value, r.now, ts);
    }
  }

  /** The trail only ever grows at its head, by one entry for each accepted transition of its incident. */
  lemma {:induction false} TrailOnlyGrows(l: Ledger, requests: seq<Request>, id: string)
    ensures var added := |Accepted(requests, id)|;
            var trail := Trail(Run(l, requests), id);
            |trail| == added + |Trail(l, id)| && trail[added..] == Trail(l, id)
    decreases |requests|
  {
    hide Normalize, Run;
    if requests == [] {
      RunNone(l);
    } else {
      var init := requests[..|requests| - 1];
      TrailOnlyGrows(l, init, id);
      RunLast(l, requests);
      var before, after := Trail(Run(l, init), id), Trail(Run(l, requests), id);
      if after != before {
        assert after[1..] == before;
      }
    }
  }

  lemma RunNone(l: Ledger)
    ensures Run(l, []) == l
  {
  }

  predicate Holds(l: Ledger, id: string, i: int, auditId: int) {
    id in l.audit && 0 <= i < |l.audit[id]| && l.audit[id][i].auditId == auditId
  }

  /** No two entries anywhere share an audit identifier. */
  ghost predicate UniqueIds(l: Ledger) {
    && (forall id, i, n :: Holds(l, id, i, n) ==> n <= l.lastId)
    && (forall a, b, i, j, n :: Holds(l, a, i, n) && Holds(l, b, j, n) ==> a == b && i == j)
  }

  lemma ApplyKeepsUniqueIds(l: Ledger, t: Transition, now: nat)
    requires UniqueIds(l)
    ensures UniqueIds(Applied(l, t, now))
  {
    var next := Applied(l, t, now);
    forall id, i, n | Holds(next, id, i, n)
      ensures if id == t.eventId && i == 0 then n == next.lastId
              else n <= l.lastId && Holds(l, id, if id == t.eventId then i - 1 else i, n)
    {
      if !(id == t.eventId && i == 0) {
        assert Holds(l, id, if id == t.eventId then i - 1 else i, n);
      }
    }
  }

  lemma {:induction false} AuditIdsAreUnique(l: Ledger, requests: seq<Request>)
    requires UniqueIds(l)
    ensures UniqueIds(Run(l, requests))
    decreases |requests|
  {
    hide UniqueIds, Normalize, Applied;
    if requests != [] {
      var t := Normalize(requests[0].body, requests[0].actor, requests[0].tenant);
      if t.Ok? {
        ApplyKeepsUniqueIds(l, t.value, requests[0].now);
      }
      AuditIdsAreUnique(Handle(l, requests[0]), requests[1..]);
    }
  }

  /** In every run from an empty ledger each trail tells its incident's state, and no audit identifier is used twice. */
  lemma EveryRunTells(requests: seq<Request>)
    ensures TrailTells(Run(EMPTY, requests)) && UniqueIds(Run(EMPTY, requests))
  {
    TrailDeterminesState(EMPTY, requests);
    AuditIdsAreUnique(EMPTY, requests);
  }
}
