/** Spool records, their size on disk, and the bound on one spool file (outbox.rs). */
module Spool {
  import opened Wrappers
  import opened Text
  import opened Json

  const MAX_ATTEMPTS := 10
  const MAX_SPOOL_RECORDS := 10_000
  const MAX_SPOOL_BYTES := 16 * 1024 * 1024

  datatype SpoolRecord = SpoolRecord(
    eventId: string,
    payload: string,
    attempts: nat,
    nextAttemptMs: nat,
    lastError: Option<string>,
    createdMs: nat)

  // ----- one line of a spool file ---------------------------------------------------------------

  /** The struct as serde writes it: fields in declaration order, no `last_error` when there is none. */
  function RecordJson(r: SpoolRecord): Value {
    Obj([Member("event_id", Str(r.eventId)),
         Member("payload", Str(r.payload)),
         Member("attempts", Num(Decimal(r.attempts))),
         Member("next_attempt_ms", Num(Decimal(r.nextAttemptMs)))]
        + (if r.lastError.Some? then [Member("last_error", Str(r.lastError.value))] else [])
        + [Member("created_ms", Num(Decimal(r.createdMs)))])
  }

  function Line(r: SpoolRecord): string {
    Print(RecordJson(r))
  }

  function LineBytes(r: SpoolRecord): nat {
    ByteLen(Line(r)) + 1
  }

  function TotalBytes(records: seq<SpoolRecord>): nat {
    if records == [] then 0 else LineBytes(records[0]) + TotalBytes(records[1..])
  }

  lemma {:induction false} TotalBytesAppend(a: seq<SpoolRecord>, b: seq<SpoolRecord>)
    ensures TotalBytes(a + b) == TotalBytes(a) + TotalBytes(b)
  {
    hide LineBytes;
    if a == [] {
      assert a + b == b;
    } else {
      assert (a + b)[1..] == a[1..] + b;
      TotalBytesAppend(a[1..], b);
    }
  }

  // ----- the bound --------------------------------------------------------------------------------

  predicate Fits(records: seq<SpoolRecord>, maxRecords: nat, maxBytes: nat) {
    |records| <= maxRecords && TotalBytes(records) <= maxBytes
  }

  /** The longest suffix that meets both caps. */
  function Bounded(records: seq<SpoolRecord>, maxRecords: nat, maxBytes: nat): seq<SpoolRecord> {
    if records == [] || Fits(records, maxRecords, maxBytes) then records
    else Bounded(records[1..], maxRecords, maxBytes)
  }

  /** The records the bound drops: the oldest ones, at the front. */
  function Overflow(records: seq<SpoolRecord>, maxRecords: nat, maxBytes: nat): (r: seq<SpoolRecord>) {
    if records == [] || Fits(records, maxRecords, maxBytes) then []
    else [records[0]] + Overflow(records[1..], maxRecords, maxBytes)
  }

  lemma {:induction false} BoundedSplits(records: seq<SpoolRecord>, maxRecords: nat, maxBytes: nat)
    ensures Overflow(records, maxRecords, maxBytes) + Bounded(records, maxRecords, maxBytes) == records
    ensures Fits(Bounded(records, maxRecords, maxBytes), maxRecords, maxBytes)
  {
    hide LineBytes;
    if records != [] && !Fits(records, maxRecords, maxBytes) {
      BoundedSplits(records[1..], maxRecords, maxBytes);
    }
  }

  /** Nothing is dropped that could have been kept: every longer suffix breaks a cap. */
  lemma {:induction false} BoundedLongest(records: seq<SpoolRecord>, maxRecords: nat, maxBytes: nat, k: nat)
    requires k < |Overflow(records, maxRecords, maxBytes)|
    ensures |Overflow(records, maxRecords, maxBytes)| <= |records|
    ensures !Fits(records[k..], maxRecords, maxBytes)
  {
    hide LineBytes;
    BoundedSplits(records, maxRecords, maxBytes);
    if k > 0 {
      BoundedLongest(records[1..], maxRecords, maxBytes, k - 1);
      assert records[1..][k - 1..] == records[k..];
    }
  }

  lemma {:induction false} DropTooMany(records: seq<SpoolRecord>, n: nat, maxRecords: nat, maxBytes: nat)
    requires n <= |records| && (n == 0 || |records| - n >= maxRecords)
    ensures Bounded(records, maxRecords, maxBytes) == Bounded(records[n..], maxRecords, maxBytes)
  {
    hide LineBytes;
    if n > 0 {
      DropTooMany(records[1..], n - 1, maxRecords, maxBytes);
      assert records[1..][n - 1..] == records[n..];
    } else {
      assert records[n..] == records;
    }
  }

  /** `enforce_spool_bounds`: count first, then bytes, dropping from the front. */
  method EnforceSpoolBounds(records: seq<SpoolRecord>, maxRecords: nat, maxBytes: nat)
    returns (kept: seq<SpoolRecord>, dropped: nat)
    ensures kept == Bounded(records, maxRecords, maxBytes)
    ensures dropped <= |records| && kept == records[dropped..]
    ensures Fits(kept, maxRecords, maxBytes)
    ensures forall k :: 0 <= k < dropped ==> !Fits(records[k..], maxRecords, maxBytes)
  {
    hide LineBytes;
    kept := records;
    if |kept| > maxRecords {
      DropTooMany(records, |records| - maxRecords, maxRecords, maxBytes);
      kept := kept[|kept| - maxRecords..];
    }
    var totalBytes := TotalBytes(kept);
    var byteDrops := 0;
    while totalBytes > maxBytes && byteDrops < |kept|
      invariant byteDrops <= |kept| <= maxRecords
      invariant totalBytes == TotalBytes(kept[byteDrops..])
      invariant Bounded(records, maxRecords, maxBytes) == Bounded(kept[byteDrops..], maxRecords, maxBytes)
    {
      assert kept[byteDrops..][1..] == kept[byteDrops + 1..];
      totalBytes := totalBytes - LineBytes(kept[byteDrops]);
      byteDrops := byteDrops + 1;
    }
    kept := kept[byteDrops..];
    dropped := |records| - |kept|;
    BoundedSplits(records, maxRecords, maxBytes);
    assert kept == records[dropped..];
    forall k | 0 <= k < dropped ensures !Fits(records[k..], maxRecords, maxBytes) {
      BoundedLongest(records, maxRecords, maxBytes, k);
    }
  }
}
