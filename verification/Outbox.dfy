/** The outbox operations on the two spool files (outbox.rs), each a method on the files proved
    against a function of their contents. */
module Outbox {
  import opened Wrappers
  import opened Text
  import opened Json
  import JsonParse
  import opened Spool

  // ----- what one delivery attempt came to ------------------------------------------------------

  datatype Outcome = Status(code: nat) | Failed(error: string)

  /** The outcome of one post, with the clock reading used to schedule a retry. */
  datatype Answer = Answer(outcome: Outcome, now: nat)

  predicate IsDelivered(o: Outcome) {
    o.Status? && 200 <= o.code < 300
  }

  predicate IsPermanent(o: Outcome) {
    o.Status? && o.code in [400, 401, 403, 413, 422]
  }

  function Describe(o: Outcome): string {
    match o
    case Status(code) => "http " + Decimal(code)
    case Failed(error) => error
  }

  function ByteSum(s: string): nat {
    if s == "" then 0 else Sum(Utf8(s[0])) + ByteSum(s[1..])
  }

  function Sum(b: seq<nat>): nat {
    if b == [] then 0 else b[0] + Sum(b[1..])
  }

  function PowerOfTwo(n: nat): nat {
    if n == 0 then 1 else 2 * PowerOfTwo(n - 1)
  }

  function Min(a: nat, b: nat): nat {
    if a < b then a else b
  }

  /** `SpoolRecord::defer`: one more attempt counted, and the next one scheduled with backoff. */
  function Defer(r: SpoolRecord, error: string, now: nat): SpoolRecord {
    var attempts := r.attempts + 1;
    var base := 1_000 * PowerOfTwo(Min(attempts, 8));
    r.(attempts := attempts,
       nextAttemptMs := now + Min(base, 300_000) + ByteSum(r.eventId) % 1_000,
       lastError := Some(error))
  }

  // ----- one drain --------------------------------------------------------------------------------

  /** A drain under way: the records of its snapshot still to be looked at, and what it has learnt. */
  datatype Drain = Drain(
    todo: seq<SpoolRecord>,
    force: bool,
    started: nat,
    delivered: set<string>,
    updated: map<string, SpoolRecord>,
    dead: seq<SpoolRecord>)

  function NewDrain(snapshot: seq<SpoolRecord>, force: bool, now: nat): Drain {
    Drain(snapshot, force, now, {}, map[], [])
  }

  predicate Due(d: Drain, r: SpoolRecord) {
    d.force || r.nextAttemptMs <= d.started
  }

  /** The next record of the snapshot: passed over while it is backing off, posted otherwise. */
  function PostNext(d: Drain, a: Answer): Drain
    requires d.todo != []
  {
    var r, rest := d.todo[0], d.(todo := d.todo[1..]);
    if !Due(d, r) then rest
    else if IsDelivered(a.outcome) then rest.(delivered := d.delivered + {r.eventId})
    else if IsPermanent(a.outcome) then
      rest.(dead := d.dead + [r.(lastError := Some(Describe(a.outcome)))])
    else
      var deferred := Defer(r, Describe(a.outcome), a.now);
      if deferred.attempts >= MAX_ATTEMPTS then rest.(dead := d.dead + [deferred])
      else rest.(updated := d.updated[r.eventId := deferred])
  }

  /** The drain after looking at as many records as there are answers, in order; the answer beside a
      record that is not due goes unused. */
  function PostAll(d: Drain, answers: seq<Answer>): Drain
    decreases |answers|
  {
    if d.todo == [] || answers == [] then d else PostAll(PostNext(d, answers[0]), answers[1..])
  }

  predicate NothingLearnt(d: Drain) {
    d.delivered == {} && d.updated == map[] && d.dead == []
  }

  // ----- the files --------------------------------------------------------------------------------

  ghost function Ids(records: seq<SpoolRecord>): set<string> {
    set r | r in records :: r.eventId
  }

  function Applied(records: seq<SpoolRecord>, d: Drain): seq<SpoolRecord> {
    if records == [] then []
    else
      var r, rest := records[0], Applied(records[1..], d);
      if r.eventId in d.delivered || exists x :: x in d.dead && x.eventId == r.eventId then rest
      else [if r.eventId in d.updated then d.updated[r.eventId] else r] + rest
  }

  function Capped(records: seq<SpoolRecord>): seq<SpoolRecord> {
    Bounded(records, MAX_SPOOL_RECORDS, MAX_SPOOL_BYTES)
  }

  /** `append_record_bounded`: the byte cap only, the record cap waits for the next compaction. */
  function Enqueued(spool: seq<SpoolRecord>, r: SpoolRecord): seq<SpoolRecord> {
    if TotalBytes(spool) + LineBytes(r) > MAX_SPOOL_BYTES then Capped(spool + [r]) else spool + [r]
  }

  function DeadAppended(deadFile: seq<SpoolRecord>, dead: seq<SpoolRecord>): seq<SpoolRecord> {
    if dead == [] then deadFile else Capped(deadFile + dead)
  }

  function Fresh(eventId: string, payload: string, now: nat): SpoolRecord {
    SpoolRecord(eventId, payload, 0, now, None, now)
  }

  // ----- replay -----------------------------------------------------------------------------------

  function LastNamed(members: seq<Member>, key: string): Option<Value> {
    if members == [] then None
    else if members[|members| - 1].key == key then Some(members[|members| - 1].value)
    else LastNamed(members[..|members| - 1], key)
  }

  /** `record_tenant`: the tenant the payload itself names. A payload that cannot be read, or that
      names none properly, belongs to nobody. */
  function RecordTenant(payload: string): Option<string> {
    var v := JsonParse.Parse(payload);
    if v.None? || !v.value.Obj? then None
    else
      var named := LastNamed(v.value.members, "tenant_id");
      if named.None? || !named.value.Str? then None
      else
        var tenant := Trim(named.value.s);
        if tenant == "" || ByteLen(tenant) > 128 || exists c :: c in tenant && IsControl(c) then None
        else Some(tenant)
  }

  predicate Selects(tenant: Option<string>, r: SpoolRecord) {
    tenant.None? || RecordTenant(r.payload) == tenant
  }

  function Chosen(tenant: Option<string>, records: seq<SpoolRecord>, keep: bool): seq<SpoolRecord> {
    if records == [] then []
    else (if Selects(tenant, records[0]) == keep then [records[0]] else [])
         + Chosen(tenant, records[1..], keep)
  }

  function Reset(r: SpoolRecord, now: nat): SpoolRecord {
    r.(attempts := 0, nextAttemptMs := 0, lastError := None,
       createdMs := if r.createdMs == 0 then now else r.createdMs)
  }

  function ResetAll(records: seq<SpoolRecord>, now: nat): (r: seq<SpoolRecord>)
    ensures |r| == |records| && forall i :: 0 <= i < |r| ==> r[i] == Reset(records[i], now)
  {
    if records == [] then [] else [Reset(records[0], now)] + ResetAll(records[1..], now)
  }

  /** The replay is refused when the records as they stand would not fit beside the spool. */
  predicate ReplayRefused(spool: seq<SpoolRecord>, selected: seq<SpoolRecord>) {
    !Fits(spool + selected, MAX_SPOOL_RECORDS, MAX_SPOOL_BYTES)
  }

  method Partition(tenant: Option<string>, records: seq<SpoolRecord>)
    returns (selected: seq<SpoolRecord>, leftBehind: seq<SpoolRecord>)
    ensures selected == Chosen(tenant, records, true)
    ensures leftBehind == Chosen(tenant, records, false)
  {
    hide RecordTenant;
    selected, leftBehind := [], [];
    var i := 0;
    while i < |records|
      invariant i <= |records|
      invariant Chosen(tenant, records, true) == selected + Chosen(tenant, records[i..], true)
      invariant Chosen(tenant, records, false) == leftBehind + Chosen(tenant, records[i..], false)
    {
      assert records[i..][1..] == records[i + 1..];
      if Selects(tenant, records[i]) {
        selected := selected + [records[i]];
      } else {
        leftBehind := leftBehind + [records[i]];
      }
      i := i + 1;
    }
  }

  method AppendReset(spool: seq<SpoolRecord>, selected: seq<SpoolRecord>, now: nat) returns (pending: seq<SpoolRecord>)
    ensures pending == spool + ResetAll(selected, now)
  {
    pending := spool;
    var i := 0;
    while i < |selected|
      invariant i <= |selected| && pending == spool + ResetAll(selected, now)[..i]
    {
      pending := pending + [Reset(selected[i], now)];
      i := i + 1;
    }
  }

  class Files {
    var spool: seq<SpoolRecord>
    var dead: seq<SpoolRecord>

    constructor ()
      ensures spool == [] && dead == []
    {
      spool, dead := [], [];
    }

    method Enqueue(eventId: string, payload: string, now: nat)
      modifies this`spool
      ensures spool == Enqueued(old(spool), Fresh(eventId, payload, now))
    {
      var r := SpoolRecord(eventId, payload, 0, now, None, now);
      var existing := TotalBytes(spool);
      if existing + LineBytes(r) > MAX_SPOOL_BYTES {
        var dropped;
        spool, dropped := EnforceSpoolBounds(spool + [r], MAX_SPOOL_RECORDS, MAX_SPOOL_BYTES);
      } else {
        spool := spool + [r];
      }
    }

    /** The posting loop. It stops early when the answers run out, which is the drain's time budget. */
    method Post(snapshot: seq<SpoolRecord>, force: bool, now: nat, answers: seq<Answer>) returns (d: Drain)
      ensures d == PostAll(NewDrain(snapshot, force, now), answers)
    {
      var delivered: set<string>, updated: map<string, SpoolRecord>, dead: seq<SpoolRecord> := {}, map[], [];
      var i := 0;
      while i < |snapshot| && i < |answers|
        invariant i <= |snapshot| && i <= |answers|
        invariant PostAll(NewDrain(snapshot, force, now), answers)
               == PostAll(Drain(snapshot[i..], force, now, delivered, updated, dead), answers[i..])
      {
        var record, answer := snapshot[i], answers[i];
        assert snapshot[i..][1..] == snapshot[i + 1..] && answers[i..][1..] == answers[i + 1..];
        i := i + 1;
        if !force && record.nextAttemptMs > now {
          continue;
        }
        if IsDelivered(answer.outcome) {
          delivered := delivered + {record.eventId};
          continue;
        }
        if IsPermanent(answer.outcome) {
          dead := dead + [record.(lastError := Some(Describe(answer.outcome)))];
          continue;
        }
        record := Defer(record, Describe(answer.outcome), answer.now);
        if record.attempts >= MAX_ATTEMPTS {
          dead := dead + [record];
        } else {
          updated := updated[record.eventId := record];
        }
      }
      d := Drain(snapshot[i..], force, now, delivered, updated, dead);
    }

    /** `reconcile` under the lock: the spool is re-read, so records that came or went meanwhile are
        respected. Either file write may fail; a failed dead write does not stop the spool write. */
    method Reconcile(d: Drain, deadWriteOk: bool, spoolWriteOk: bool)
      modifies this
      ensures dead == if deadWriteOk then DeadAppended(old(dead), d.dead) else old(dead)
      ensures spool == if spoolWriteOk then Capped(Applied(old(spool), d)) else old(spool)
    {
      hide Bounded, LineBytes, Fits;
      var keep := [];
      var i := 0;
      while i < |spool|
        invariant i <= |spool| && spool == old(spool) && dead == old(dead)
        invariant Applied(spool, d) == keep + Applied(spool[i..], d)
      {
        var r := spool[i];
        assert spool[i..][1..] == spool[i + 1..];
        if r.eventId !in d.delivered && !exists x :: x in d.dead && x.eventId == r.eventId {
          keep := keep + [if r.eventId in d.updated then d.updated[r.eventId] else r];
        }
        i := i + 1;
      }
      assert keep == Applied(spool, d);
      var dropped;
      keep, dropped := EnforceSpoolBounds(keep, MAX_SPOOL_RECORDS, MAX_SPOOL_BYTES);
      if d.dead != [] && deadWriteOk {
        dead, dropped := EnforceSpoolBounds(dead + d.dead, MAX_SPOOL_RECORDS, MAX_SPOOL_BYTES);
      }
      if spoolWriteOk {
        spool := keep;
      }
    }

    /** `replay_dead_letters`. A refusal is the error return; the spool is written before the dead
        file, so a crash in between leaves the replayed records in both. */
    method Replay(tenant: Option<string>, now: nat, crashed: bool) returns (r: Result<nat, ()>)
      modifies this
      ensures var selected := Chosen(tenant, old(dead), true);
              if selected == [] then r == Ok(0) && spool == old(spool) && dead == old(dead)
              else if ReplayRefused(old(spool), selected) then r == Err(()) && spool == old(spool) && dead == old(dead)
              else
                && r == Ok(|selected|)
                && spool == Capped(old(spool) + ResetAll(selected, now))
                && dead == if crashed then old(dead) else Chosen(tenant, old(dead), false)
    {
      hide LineBytes, Chosen, Bounded, TotalBytes;
      var selected, leftBehind := Partition(tenant, dead);
      if selected == [] {
        return Ok(0);
      }
      var projectedRecords := |spool| + |selected|;
      var projectedBytes := TotalBytes(spool) + TotalBytes(selected);
      TotalBytesAppend(spool, selected);
      if projectedRecords > MAX_SPOOL_RECORDS || projectedBytes > MAX_SPOOL_BYTES {
        return Err(());
      }
      var pending := AppendReset(spool, selected, now);
      var dropped;
      pending, dropped := EnforceSpoolBounds(pending, MAX_SPOOL_RECORDS, MAX_SPOOL_BYTES);
      spool := pending;
      if !crashed {
        dead := leftBehind;
      }
      return Ok(|selected|);
    }
  }
}
