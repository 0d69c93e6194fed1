/** The record cap of the spool: what an enqueue does about it, and what compaction does. */
module OutboxBounds {
  import opened Wrappers
  import opened Spool
  import opened Outbox
  import opened OutboxProtocol
  import OutboxSizes

  /** An enqueue leaves the spool within its record cap exactly when there was room for one more record, or the
      bytes overflowed and the bound was applied. */
  lemma EnqueueKeepsTheRecordCap(spool: seq<SpoolRecord>, r: SpoolRecord)
    ensures |Enqueued(spool, r)| <= MAX_SPOOL_RECORDS
            <==> |spool| < MAX_SPOOL_RECORDS || TotalBytes(spool) + LineBytes(r) > MAX_SPOOL_BYTES
  {
    hide LineBytes, TotalBytes;
    BoundedSplits(spool + [r], MAX_SPOOL_RECORDS, MAX_SPOOL_BYTES);
  }

  /** Whatever the spool was, a reconcile that writes it leaves it within both caps, and so does an accepted replay. */
  lemma CompactionRestoresTheCaps(w: World, worker: nat, deadWriteOk: bool, tenant: Option<string>, now: nat, crashed: bool)
    ensures worker in w.drains && !NothingLearnt(w.drains[worker])
            ==> Fits(AfterReconcile(w, worker, deadWriteOk, true).spool, MAX_SPOOL_RECORDS, MAX_SPOOL_BYTES)
    ensures var selected := Chosen(tenant, w.dead, true);
            selected != [] && !ReplayRefused(w.spool, selected)
            ==> Fits(AfterReplay(w, tenant, now, crashed).spool, MAX_SPOOL_RECORDS, MAX_SPOOL_BYTES)
  {
    hide Bounded, Overflow, Chosen, ResetAll, Applied, Fits;
    if worker in w.drains {
      BoundedSplits(Applied(w.spool, w.drains[worker]), MAX_SPOOL_RECORDS, MAX_SPOOL_BYTES);
    }
    var selected := Chosen(tenant, w.dead, true);
    BoundedSplits(w.spool + ResetAll(selected, now), MAX_SPOOL_RECORDS, MAX_SPOOL_BYTES);
  }

  // ----- ten thousand and one small events --------------------------------------------------------------------

  function Enqueues(n: nat): seq<Step> {
    if n == 0 then [] else Enqueues(n - 1) + [Enqueue("e", "", 0)]
  }

  function Small(n: nat): (r: seq<SpoolRecord>)
    ensures |r| == n
  {
    if n == 0 then [] else Small(n - 1) + [Fresh("e", "", 0)]
  }

  lemma {:induction false} SmallBytes(n: nat)
    ensures TotalBytes(Small(n)) <= 1_300 * n
  {
    if n > 0 {
      var r := Fresh("e", "", 0);
      SmallBytes(n - 1);
      OutboxSizes.SmallRecordBytes(r);
      hide LineBytes;
      TotalBytesAppend(Small(n - 1), [r]);
      assert [r][1..] == [];
      assert TotalBytes([r]) == LineBytes(r);
    }
  }

  lemma {:induction false} RunLast(w: World, steps: seq<Step>, s: Step)
    ensures Run(w, steps + [s]) == Next(Run(w, steps), s)
    decreases |steps|
  {
    hide Next;
    if steps == [] {
      assert [] + [s] == [s] && [s][1..] == [];
      assert Run(Next(w, s), []) == Next(w, s);
    } else {
      assert (steps + [s])[1..] == steps[1..] + [s];
      RunLast(Next(w, steps[0]), steps[1..], s);
    }
  }

  lemma {:induction false} EnqueuesPileUp(n: nat)
    requires 1_300 * n <= MAX_SPOOL_BYTES
    ensures Run(EMPTY, Enqueues(n)).spool == Small(n)
  {
    if n > 0 {
      EnqueuesPileUp(n - 1);
      SmallBytes(n - 1);
      var r := Fresh("e", "", 0);
      OutboxSizes.SmallRecordBytes(r);
      hide LineBytes, TotalBytes, Run;
      RunLast(EMPTY, Enqueues(n - 1), Enqueue("e", "", 0));
    }
  }

  /** A run that takes the spool past its record cap, well within its byte cap. */
  lemma EnqueuesPassTheRecordCap(n: nat)
    requires MAX_SPOOL_RECORDS < n && 1_300 * n <= MAX_SPOOL_BYTES
    ensures |Run(EMPTY, Enqueues(n)).spool| == n > MAX_SPOOL_RECORDS
  {
    hide Run, Enqueues;
    EnqueuesPileUp(n);
  }
}
