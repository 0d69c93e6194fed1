/** The baseline trust store (fingerprint.rs): what a proxy holds, what is on disk, and how the two meet.

    The keyed hash of a tool is read as content equality, so a fingerprint is the canonical text
    itself. A baseline file is kept as its contents and a spelling, because one set of contents can be
    written in several orders and the digest that detects a change is taken over the text. */
module Baseline {
  import opened Wrappers
  import opened Text
  import opened Json
  import opened Names
  import Canonical
  import PrettyJson

  const MAX_BASELINE_BYTES := 16 * 1024 * 1024
  const MAX_BASELINE_TOOLS := 10_000
  const MAX_TOOL_NAME_BYTES := 128

  function Find(members: seq<Member>, key: string): Option<Value> {
    if members == [] then None
    else if members[0].key == key then Some(members[0].value) else Find(members[1..], key)
  }

  function Get(v: Value, key: string): Option<Value> {
    if v.Obj? then Find(v.members, key) else None
  }

  function GetText(v: Value, key: string): Option<string> {
    var f := Get(v, key);
    if f.Some? && f.value.Str? then Some(f.value.s) else None
  }

  function RawName(tool: Value): Option<string> {
    GetText(tool, "name")
  }

  function Description(tool: Value): string {
    GetText(tool, "description").GetOr("")
  }

  function Fingerprint(tool: Value): string {
    Canonical.Canonicalize(Canonical.CodePoints, tool)
  }

  datatype Entry = Entry(hash: string, description: string, firstSeenMs: nat, tool: Value)

  function NewEntry(hash: string, tool: Value, now: nat): Entry {
    Entry(hash, Description(tool), now, tool)
  }

  datatype BaselineFile = BaselineFile(tools: map<string, Entry>, pending: map<string, Entry>, revoked: set<string>)

  datatype DiskText = DiskText(file: BaselineFile, spelling: nat)

  /** A store as a value. `digest` is the text last loaded or saved. */
  datatype Trust = Trust(
    tools: map<string, Entry>,
    pending: map<string, Entry>,
    revoked: set<string>,
    dirty: bool,
    unpersisted: set<string>,
    digest: Option<DiskText>)
  {
    predicate Contains(name: string) {
      name in tools && name !in unpersisted
    }

    function File(): BaselineFile {
      BaselineFile(tools, pending, revoked)
    }
  }

  const EMPTY_TRUST := Trust(map[], map[], {}, false, {}, None)

  // ----- authentication on load --------------------------------------------------------------------------

  /** What an entry must be for its tool to be used as a rewrite payload. */
  predicate Authentic(name: string, e: Entry) {
    && !e.tool.Null?
    && RawName(e.tool) == Some(name)
    && e.description == Description(e.tool)
    && e.hash == Fingerprint(e.tool)
  }

  predicate AllAuthentic(entries: map<string, Entry>) {
    forall name :: name in entries ==> Authentic(name, entries[name])
  }

  predicate NamesInBounds(entries: map<string, Entry>) {
    forall name :: name in entries ==> name != "" && ByteLen(name) <= MAX_TOOL_NAME_BYTES
  }

  predicate WithinLimits(f: BaselineFile) {
    && |f.tools| <= MAX_BASELINE_TOOLS && |f.pending| <= MAX_BASELINE_TOOLS && |f.revoked| <= MAX_BASELINE_TOOLS
    && NamesInBounds(f.tools) && NamesInBounds(f.pending)
  }

  // ----- the text of a file ------------------------------------------------------------------------------

  /** The hash stands as the hexadecimal digits of a keyed SHA-256. */
  const HASH_DIGITS := 64

  function EntryValue(e: Entry): Value {
    Obj([Member("hash", Str(seq(HASH_DIGITS, i => '0'))),
         Member("description", Str(e.description)),
         Member("first_seen_ms", Num(Decimal(e.firstSeenMs))),
         Member("tool", e.tool)])
  }

  function EntryMember(entries: map<string, Entry>, k: string): Member {
    Member(k, if k in entries then EntryValue(entries[k]) else Null)
  }

  /** The entries, in the given order of their names. */
  function EntriesValue(entries: map<string, Entry>, order: seq<string>): Value {
    Obj(seq(|order|, i requires 0 <= i < |order| => EntryMember(entries, order[i])))
  }

  function TextsValue(order: seq<string>): Value {
    Arr(seq(|order|, i requires 0 <= i < |order| => Str(order[i])))
  }

  function Root(tools: Value, pending: Value, revoked: Value): Value {
    Obj([Member("tools", tools), Member("pending", pending), Member("revoked", revoked)])
  }

  /** The file with the names of its maps and of its set in the given orders. */
  function FileValue(f: BaselineFile, tools: seq<string>, pending: seq<string>, revoked: seq<string>): Value {
    Root(EntriesValue(f.tools, tools), EntriesValue(f.pending, pending), TextsValue(revoked))
  }

  /** The length of the file in bytes, which no order of the names changes. */
  function FileBytes(f: BaselineFile): nat {
    ByteLen(PrettyJson.Pretty(FileValue(f, Sorted(f.tools.Keys), Sorted(f.pending.Keys), Sorted(f.revoked)), 0))
  }

  predicate Loads(f: BaselineFile) {
    && FileBytes(f) <= MAX_BASELINE_BYTES
    && WithinLimits(f) && AllAuthentic(f.tools) && AllAuthentic(f.pending)
  }

  // ----- the operations as functions ------------------------------------------------------------------------

  function Load(disk: Option<DiskText>): Result<Trust, ()> {
    if disk.None? then Ok(EMPTY_TRUST)
    else if !Loads(disk.value.file) then Err(())
    else Ok(Trust(disk.value.file.tools, disk.value.file.pending, disk.value.file.revoked, false, {}, disk))
  }

  /** The merge of unsaved state with a changed file: the disk copy of a name wins, and no revocation
      is lost. */
  function Merge(s: Trust, t: DiskText): Trust {
    var tools := s.tools + t.file.tools;
    Trust(tools,
          (s.pending - tools.Keys) + t.file.pending,
          t.file.revoked + s.revoked,
          s.dirty,
          s.unpersisted - t.file.tools.Keys,
          Some(t))
  }

  /** `reload_if_changed`; a file that does not load leaves the store as it was. */
  function Reload(s: Trust, disk: Option<DiskText>): Trust {
    match disk
    case None => if s.digest.Some? then EMPTY_TRUST else s
    case Some(t) =>
      if s.digest == disk || !Loads(t.file) then s
      else if s.dirty then Merge(s, t)
      else Trust(t.file.tools, t.file.pending, t.file.revoked, false, {}, disk)
  }

  datatype Verdict = Registered | Match | Mismatch(baseline: Entry)

  function VerdictOf(s: Trust, name: string, hash: string): Verdict {
    if name !in s.tools then Registered
    else if s.tools[name].hash == hash then Match
    else Mismatch(s.tools[name])
  }

  /** `check`: only a name never seen before changes anything. */
  function Check(s: Trust, name: string, hash: string, tool: Value, now: nat): Trust {
    if name in s.tools then s
    else s.(tools := s.tools[name := NewEntry(hash, tool, now)],
            unpersisted := s.unpersisted + {name},
            dirty := true)
  }

  function Park(s: Trust, name: string, hash: string, tool: Value, now: nat): Trust {
    if name in s.pending then s
    else s.(pending := s.pending[name := NewEntry(hash, tool, now)], dirty := true)
  }

  function Approve(s: Trust, name: string): Trust {
    if name !in s.pending then s
    else s.(pending := s.pending - {name},
            tools := s.tools[name := s.pending[name]],
            revoked := s.revoked - {name},
            dirty := true)
  }

  function Revoke(s: Trust, name: string): Trust {
    if name !in s.tools then s
    else s.(tools := s.tools - {name},
            pending := if name in s.pending then s.pending else s.pending[name := s.tools[name]],
            revoked := s.revoked + {name},
            unpersisted := s.unpersisted - {name},
            dirty := true)
  }

  /** A save that reached the disk as the given text. */
  function Saved(s: Trust, spelling: nat): Trust {
    s.(dirty := false, unpersisted := {}, digest := Some(DiskText(s.File(), spelling)))
  }

  // ----- the file and the store as objects --------------------------------------------------------------------

  class Disk {
    var text: Option<DiskText>

    constructor ()
      ensures text == None
    {
      text := None;
    }
  }

  /** Add my entries to theirs, except under names they have or that are skipped. */
  method KeepTheirs(mine: map<string, Entry>, theirs: map<string, Entry>, skip: set<string>)
    returns (merged: map<string, Entry>)
    ensures merged == (mine - skip) + theirs
  {
    merged := theirs;
    var names := mine.Keys;
    while names != {}
      invariant names <= mine.Keys
      invariant merged == (mine - names - skip) + theirs
    {
      var name :| name in names;
      if name !in skip && name !in merged {
        merged := merged[name := mine[name]];
      }
      names := names - {name};
    }
    assert mine - {} - skip == mine - skip;
  }

  class BaselineStore {
    const disk: Disk
    var tools: map<string, Entry>
    var pending: map<string, Entry>
    var revoked: set<string>
    var dirty: bool
    var unpersisted: set<string>
    var digest: Option<DiskText>

    function Value(): Trust
      reads this
    {
      Trust(tools, pending, revoked, dirty, unpersisted, digest)
    }

    /** A new store over a file that may not exist; whether it loaded is in `Opened`. */
    constructor (disk: Disk)
      ensures this.disk == disk
      ensures Value() == EMPTY_TRUST
    {
      this.disk := disk;
      tools, pending, revoked, dirty, unpersisted, digest := map[], map[], {}, false, {}, None;
    }

    method Open() returns (ok: bool)
      requires Value() == EMPTY_TRUST
      modifies this
      ensures ok == Load(disk.text).Ok?
      ensures Value() == if ok then Load(disk.text).value else EMPTY_TRUST
    {
      hide Loads;
      if disk.text.None? {
        return true;
      }
      var file := disk.text.value.file;
      if !Loads(file) {
        return false;
      }
      tools, pending, revoked := file.tools, file.pending, file.revoked;
      digest := disk.text;
      return true;
    }

    method ReloadIfChanged() returns (ok: bool)
      modifies this
      ensures ok == (disk.text.Some? && disk.text != old(digest) ==> Loads(disk.text.value.file))
      ensures Value() == Reload(old(Value()), disk.text)
    {
      hide Loads;
      if disk.text.None? {
        if digest.Some? {
          tools, pending, revoked, dirty, unpersisted, digest := map[], map[], {}, false, {}, None;
        }
        return true;
      }
      var t := disk.text.value;
      if digest == Some(t) {
        return true;
      }
      if !Loads(t.file) {
        return false;
      }
      if dirty {
        MergeWith(t);
      } else {
        tools, pending, revoked := t.file.tools, t.file.pending, t.file.revoked;
        unpersisted := {};
      }
      digest := Some(t);
      return true;
    }

    method MergeWith(t: DiskText)
      modifies this`tools, this`pending, this`revoked, this`unpersisted
      ensures Value() == Merge(old(Value()), t).(digest := old(digest))
    {
      var mergedTools := KeepTheirs(tools, t.file.tools, {});
      assert tools - {} == tools;
      pending := KeepTheirs(pending, t.file.pending, mergedTools.Keys);
      tools := mergedTools;
      revoked := t.file.revoked + revoked;
      unpersisted := unpersisted - t.file.tools.Keys;
    }

    method CheckTool(name: string, hash: string, tool: Json.Value, now: nat) returns (v: Verdict)
      modifies this`tools, this`unpersisted, this`dirty
      ensures v == VerdictOf(old(Value()), name, hash)
      ensures Value() == Check(old(Value()), name, hash, tool, now)
    {
      if name !in tools {
        tools := tools[name := NewEntry(hash, tool, now)];
        unpersisted := unpersisted + {name};
        dirty := true;
        return Registered;
      }
      if tools[name].hash == hash {
        return Match;
      }
      return Mismatch(tools[name]);
    }

    method RegisterPending(name: string, hash: string, tool: Json.Value, now: nat) returns (newly: bool)
      modifies this`pending, this`dirty
      ensures newly == (name !in old(pending))
      ensures Value() == Park(old(Value()), name, hash, tool, now)
    {
      if name in pending {
        return false;
      }
      pending := pending[name := NewEntry(hash, tool, now)];
      dirty := true;
      return true;
    }

    method ApproveTool(name: string) returns (ok: bool)
      modifies this
      ensures ok == (name in old(pending))
      ensures Value() == Approve(old(Value()), name)
    {
      if name !in pending {
        return false;
      }
      tools := tools[name := pending[name]];
      pending := pending - {name};
      revoked := revoked - {name};
      dirty := true;
      return true;
    }

    method RevokeTool(name: string) returns (ok: bool)
      modifies this
      ensures ok == (name in old(tools))
      ensures Value() == Revoke(old(Value()), name)
    {
      if name !in tools {
        return false;
      }
      if name !in pending {
        pending := pending[name := tools[name]];
      }
      tools := tools - {name};
      revoked := revoked + {name};
      unpersisted := unpersisted - {name};
      dirty := true;
      return true;
    }

    /** Written only when something changed; a write that fails leaves both sides alone. */
    method SaveIfDirty(writeOk: bool, spelling: nat)
      modifies this, disk
      ensures if old(dirty) && writeOk
              then Value() == Saved(old(Value()), spelling) && disk.text == Value().digest
              else Value() == old(Value()) && disk.text == old(disk.text)
    {
      if dirty && writeOk {
        var t := DiskText(BaselineFile(tools, pending, revoked), spelling);
        disk.text := Some(t);
        digest := Some(t);
        dirty := false;
        unpersisted := {};
      }
    }
  }

  // ----- what a proxy's store always satisfies ------------------------------------------------------------------

  /** What memory knows of the text it was last in step with: every trusted entry and every revocation
      in it is still held, and no such entry counts as a guess. With nothing loaded or saved yet there is
      nothing revoked. */
  predicate InStep(s: Trust) {
    match s.digest
    case Some(t) =>
      && t.file.revoked <= s.revoked
      && forall name :: name in t.file.tools ==> s.Contains(name) && s.tools[name] == t.file.tools[name]
    case None => s.revoked == {}
  }

  /** A registration that is not on disk is a guess: it is among the tools, and only while dirty. */
  predicate GuessesTracked(s: Trust) {
    && s.unpersisted <= s.tools.Keys
    && (s.unpersisted != {} ==> s.dirty)
  }

  /** With nothing unsaved, memory is the text it was last in step with. */
  predicate InSync(s: Trust) {
    !s.dirty ==> if s.digest.Some? then s.File() == s.digest.value.file else s.File() == BaselineFile(map[], map[], {})
  }

  predicate Sound(s: Trust) {
    && InStep(s) && GuessesTracked(s) && InSync(s)
    && AllAuthentic(s.tools) && AllAuthentic(s.pending)
  }

  lemma LoadSound(disk: Option<DiskText>)
    requires Load(disk).Ok?
    ensures Sound(Load(disk).value)
  {
    hide Authentic;
  }

  lemma ReloadSound(s: Trust, disk: Option<DiskText>)
    requires Sound(s)
    ensures Sound(Reload(s, disk))
  {
    if disk.Some? && Loads(disk.value.file) {
      MergeSound(s, disk.value);
      LoadSound(disk);
    }
    hide Sound, Merge, Loads;
    assert Sound(EMPTY_TRUST) by { EmptySound(); }
  }

  lemma EmptySound()
    ensures Sound(EMPTY_TRUST)
  {
  }

  lemma MergeSound(s: Trust, t: DiskText)
    requires Sound(s) && Loads(t.file)
    ensures s.dirty ==> Sound(Merge(s, t))
  {
    hide Authentic, WithinLimits, FileBytes;
  }

  lemma CheckSound(s: Trust, name: string, tool: Value, now: nat)
    requires Sound(s) && RawName(tool) == Some(name)
    ensures Sound(Check(s, name, Fingerprint(tool), tool, now))
  {
    hide RawName, Description, Fingerprint;
    assert !tool.Null? by { NamedNotNull(tool); }
    assert Authentic(name, NewEntry(Fingerprint(tool), tool, now));
    hide Authentic;
  }

  lemma NamedNotNull(tool: Value)
    requires RawName(tool).Some?
    ensures !tool.Null?
  {
  }

  lemma ParkSound(s: Trust, name: string, tool: Value, now: nat)
    requires Sound(s) && RawName(tool) == Some(name)
    ensures Sound(Park(s, name, Fingerprint(tool), tool, now))
  {
    hide RawName, Description, Fingerprint;
    assert !tool.Null? by { NamedNotNull(tool); }
    assert Authentic(name, NewEntry(Fingerprint(tool), tool, now));
    hide Authentic;
  }

  lemma SavedSound(s: Trust, spelling: nat)
    requires Sound(s)
    ensures Sound(Saved(s, spelling))
  {
    hide Authentic;
  }

  /** Approving a revoked tool brings back what was trusted, and nothing else changes, exactly when no
      other schema was already waiting under that name. */
  lemma ApproveUndoesRevoke(s: Trust, name: string)
    requires name in s.tools
    ensures var t := Approve(Revoke(s, name), name);
            && (t.tools == s.tools <==> (name in s.pending ==> s.pending[name] == s.tools[name]))
            && t.pending == s.pending - {name} && t.revoked == s.revoked - {name}
  {
    var r := Revoke(s, name);
    var t := Approve(r, name);
    assert t.tools == s.tools[name := r.pending[name]];
    assert t.tools[name] == r.pending[name];
  }

  /** Where one was, approving puts that one in place of what was trusted before the revocation. */
  lemma ApproveTakesTheOtherSchema(s: Trust, name: string)
    requires name in s.tools && name in s.pending && s.pending[name] != s.tools[name]
    ensures Approve(Revoke(s, name), name).tools == s.tools[name := s.pending[name]] != s.tools
  {
    ApproveUndoesRevoke(s, name);
    assert Revoke(s, name).pending[name] == s.pending[name];
  }

  /** A saved store loads back as itself exactly when its file is within every limit of load, which save does not
      check: authentication never stands in the way, but a proxy measures a name after trimming it, and load before,
      and nothing but load measures the file. */
  lemma SavedStoreLoads(s: Trust, spelling: nat)
    requires Sound(s)
    ensures Load(Saved(s, spelling).digest) == Ok(Saved(s, spelling))
            <==> && FileBytes(s.File()) <= 16 * 1024 * 1024
                 && |s.tools| <= 10_000 && |s.pending| <= 10_000 && |s.revoked| <= 10_000
                 && forall name :: name in s.tools || name in s.pending ==> name != "" && ByteLen(name) <= 128
  {
    hide Authentic, ByteLen, FileBytes;
    assert WithinLimits(s.File())
           <==> && |s.tools| <= 10_000 && |s.pending| <= 10_000 && |s.revoked| <= 10_000
                && forall name :: name in s.tools || name in s.pending ==> name != "" && ByteLen(name) <= 128;
  }
}
