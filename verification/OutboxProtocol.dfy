/** The outbox as a protocol: enqueuers, any number of drainers and replays share the two files.

    Every file operation happens under the lock and is one step. A drain is a snapshot, one step per
    post with no lock held, and a reconcile against the files as they then are, so any other step can
    fall in between. A process may stop anywhere, and either write of a reconcile may fail. */
module OutboxProtocol {
  import opened Wrappers
  import opened Spool
  import opened Outbox
  import OutboxSizes

  /** The files, the drains under way, and the history the properties speak about. */
  datatype World = World(
    spool: seq<SpoolRecord>,
    dead: seq<SpoolRecord>,
    drains: map<nat, Drain>,
    enqueued: set<(string, string)>,
    acked: set<string>,
    evicted: set<string>)

  datatype Step =
    | Enqueue(eventId: string, payload: string, now: nat)
    | Snapshot(worker: nat, force: bool, now: nat)
    | Post(worker: nat, answer: Answer)
    | Reconcile(worker: nat, deadWriteOk: bool, spoolWriteOk: bool)
    | Stop(worker: nat)
    | Replay(tenant: Option<string>, now: nat, crashed: bool)

  const EMPTY := World([], [], map[], {}, {}, {})

  ghost function Dropped(records: seq<SpoolRecord>): set<string> {
    Ids(Overflow(records, MAX_SPOOL_RECORDS, MAX_SPOOL_BYTES))
  }

  ghost function AfterEnqueue(w: World, eventId: string, payload: string, now: nat): World {
    var r := Fresh(eventId, payload, now);
    w.(spool := Enqueued(w.spool, r),
       enqueued := w.enqueued + {(eventId, payload)},
       evicted := w.evicted + if TotalBytes(w.spool) + LineBytes(r) > MAX_SPOOL_BYTES then Dropped(w.spool + [r]) else {})
  }

  ghost function AfterPost(w: World, worker: nat, answer: Answer): World
    requires worker in w.drains && w.drains[worker].todo != []
  {
    var d := PostNext(w.drains[worker], answer);
    w.(drains := w.drains[worker := d], acked := w.acked + d.delivered)
  }

  ghost function AfterReconcile(w: World, worker: nat, deadWriteOk: bool, spoolWriteOk: bool): World
    requires worker in w.drains
  {
    var d := w.drains[worker];
    var w' := w.(drains := w.drains - {worker});
    if NothingLearnt(d) then w'
    else
      var kept := Applied(w.spool, d);
      w'.(dead := if deadWriteOk then DeadAppended(w.dead, d.dead) else w.dead,
          spool := if spoolWriteOk then Capped(kept) else w.spool,
          evicted := w.evicted
                     + (if spoolWriteOk then Dropped(kept) else {})
                     + (if deadWriteOk && d.dead != [] then Dropped(w.dead + d.dead) else {}))
  }

  ghost function AfterReplay(w: World, tenant: Option<string>, now: nat, crashed: bool): World {
    var selected := Chosen(tenant, w.dead, true);
    if selected == [] || ReplayRefused(w.spool, selected) then w
    else
      w.(spool := Capped(w.spool + ResetAll(selected, now)),
         dead := if crashed then w.dead else Chosen(tenant, w.dead, false),
         evicted := w.evicted + Dropped(w.spool + ResetAll(selected, now)))
  }

  ghost function Next(w: World, s: Step): World {
    match s
    case Enqueue(eventId, payload, now) => AfterEnqueue(w, eventId, payload, now)
    case Snapshot(worker, force, now) =>
      if worker in w.drains || w.spool == [] then w
      else w.(drains := w.drains[worker := NewDrain(w.spool, force, now)])
    case Post(worker, answer) =>
      if worker !in w.drains || w.drains[worker].todo == [] then w else AfterPost(w, worker, answer)
    case Reconcile(worker, deadWriteOk, spoolWriteOk) =>
      if worker !in w.drains then w else AfterReconcile(w, worker, deadWriteOk, spoolWriteOk)
    case Stop(worker) => w.(drains := w.drains - {worker})
    case Replay(tenant, now, crashed) => AfterReplay(w, tenant, now, crashed)
  }

  ghost function Run(w: World, steps: seq<Step>): World
    decreases |steps|
  {
    if steps == [] then w else Run(Next(w, steps[0]), steps[1..])
  }

  // ----- the invariant ----------------------------------------------------------------------------

  /** A copy of an enqueued event: same id, same payload. */
  predicate CopyOf(enqueued: set<(string, string)>, r: SpoolRecord) {
    (r.eventId, r.payload) in enqueued
  }

  predicate Copies(enqueued: set<(string, string)>, records: seq<SpoolRecord>) {
    forall r :: r in records ==> CopyOf(enqueued, r)
  }

  predicate Retryable(records: seq<SpoolRecord>) {
    forall r :: r in records ==> r.attempts < MAX_ATTEMPTS
  }

  predicate DrainSound(enqueued: set<(string, string)>, acked: set<string>, d: Drain) {
    && Copies(enqueued, d.todo) && Retryable(d.todo)
    && Copies(enqueued, d.dead)
    && d.delivered <= acked
    && forall k :: k in d.updated ==>
         d.updated[k].eventId == k && CopyOf(enqueued, d.updated[k]) && d.updated[k].attempts < MAX_ATTEMPTS
  }

  predicate DrainsSound(w: World) {
    forall i :: i in w.drains ==> DrainSound(w.enqueued, w.acked, w.drains[i])
  }

  ghost predicate Accounted(w: World, eventId: string) {
    eventId in Ids(w.spool) || eventId in Ids(w.dead) || eventId in w.acked || eventId in w.evicted
  }

  ghost predicate Conserved(w: World) {
    forall e :: e in w.enqueued ==> Accounted(w, e.0)
  }

  ghost predicate Inv(w: World) {
    && Copies(w.enqueued, w.spool) && Retryable(w.spool)
    && Copies(w.enqueued, w.dead)
    && DrainsSound(w)
    && TotalBytes(w.spool) <= MAX_SPOOL_BYTES
    && Fits(w.dead, MAX_SPOOL_RECORDS, MAX_SPOOL_BYTES)
  }

  // ----- lemmas about the file functions ------------------------------------------------------------

  lemma IdsAppend(a: seq<SpoolRecord>, b: seq<SpoolRecord>)
    ensures Ids(a + b) == Ids(a) + Ids(b)
  {
    forall k ensures k in Ids(a + b) <==> k in Ids(a) + Ids(b) {
      assert forall r :: r in a + b <==> r in a || r in b;
    }
  }

  lemma CappedFacts(records: seq<SpoolRecord>)
    ensures Fits(Capped(records), MAX_SPOOL_RECORDS, MAX_SPOOL_BYTES)
    ensures Ids(records) == Ids(Capped(records)) + Dropped(records)
    ensures forall r :: r in Capped(records) ==> r in records
  {
    hide LineBytes;
    hide Fits;
    BoundedSplits(records, MAX_SPOOL_RECORDS, MAX_SPOOL_BYTES);
    var o := Overflow(records, MAX_SPOOL_RECORDS, MAX_SPOOL_BYTES);
    IdsAppend(o, Capped(records));
    assert o + Capped(records) == records;
    assert forall r :: r in Capped(records) ==> r in o + Capped(records);
  }

  lemma {:induction false} AppliedFacts(records: seq<SpoolRecord>, d: Drain, enqueued: set<(string, string)>, acked: set<string>)
    requires Copies(enqueued, records) && Retryable(records) && DrainSound(enqueued, acked, d)
    ensures Copies(enqueued, Applied(records, d)) && Retryable(Applied(records, d))
    ensures Ids(Applied(records, d)) == Ids(records) - d.delivered - Ids(d.dead)
  {
    if records != [] {
      AppliedFacts(records[1..], d, enqueued, acked);
      var r := records[0];
      assert Ids(records) == {r.eventId} + Ids(records[1..]) by {
        IdsAppend([r], records[1..]);
        assert [r] + records[1..] == records;
        assert Ids([r]) == {r.eventId} by { assert forall x :: x in [r] <==> x == r; }
      }
      assert (exists x :: x in d.dead && x.eventId == r.eventId) <==> r.eventId in Ids(d.dead);
      if r.eventId !in d.delivered && r.eventId !in Ids(d.dead) {
        var r' := if r.eventId in d.updated then d.updated[r.eventId] else r;
        IdsAppend([r'], Applied(records[1..], d));
        assert Ids([r']) == {r.eventId} by { assert forall x :: x in [r'] <==> x == r'; }
      }
    }
  }

  lemma {:induction false} ChosenSplits(tenant: Option<string>, records: seq<SpoolRecord>)
    ensures forall r :: r in Chosen(tenant, records, true) <==> r in records && Selects(tenant, r)
    ensures forall r :: r in Chosen(tenant, records, false) <==> r in records && !Selects(tenant, r)
    ensures |Chosen(tenant, records, false)| <= |records|
    ensures TotalBytes(Chosen(tenant, records, false)) <= TotalBytes(records)
  {
    hide LineBytes;
    hide Selects;
    if records != [] {
      ChosenSplits(tenant, records[1..]);
      var rest := Chosen(tenant, records[1..], false);
      assert ([records[0]] + rest)[1..] == rest && [] + rest == rest;
      assert forall r :: r in records <==> r == records[0] || r in records[1..];
    }
  }

  lemma ResetAllFacts(records: seq<SpoolRecord>, now: nat, enqueued: set<(string, string)>)
    requires Copies(enqueued, records)
    ensures Copies(enqueued, ResetAll(records, now)) && Retryable(ResetAll(records, now))
    ensures Ids(ResetAll(records, now)) == Ids(records)
  {
    var reset := ResetAll(records, now);
    forall r | r in reset ensures CopyOf(enqueued, r) && r.attempts == 0 {
      var i :| 0 <= i < |reset| && reset[i] == r;
      assert records[i] in records;
    }
    forall k ensures k in Ids(reset) <==> k in Ids(records) {
      if k in Ids(reset) {
        var i :| 0 <= i < |reset| && reset[i].eventId == k;
        assert records[i] in records;
      }
      if k in Ids(records) {
        var i :| 0 <= i < |records| && records[i].eventId == k;
        assert reset[i] in reset;
      }
    }
  }

  lemma PostNextSound(d: Drain, a: Answer, enqueued: set<(string, string)>, acked: set<string>)
    requires d.todo != [] && DrainSound(enqueued, acked, d)
    ensures DrainSound(enqueued, acked + PostNext(d, a).delivered, PostNext(d, a))
  {
    hide Describe, PowerOfTwo, ByteSum, IsDelivered, IsPermanent;
    var r := d.todo[0];
    assert r in d.todo && forall x :: x in d.todo[1..] ==> x in d.todo;
  }

  // ----- every step keeps the invariant, and loses nothing ------------------------------------------

  lemma EnqueueKeeps(w: World, eventId: string, payload: string, now: nat)
    requires Inv(w)
    ensures Inv(AfterEnqueue(w, eventId, payload, now))
    ensures Conserved(w) ==> Conserved(AfterEnqueue(w, eventId, payload, now))
  {
    hide LineBytes;
    var r := Fresh(eventId, payload, now);
    var w' := AfterEnqueue(w, eventId, payload, now);
    CappedFacts(w.spool + [r]);
    IdsAppend(w.spool, [r]);
    assert r in [r];
    TotalBytesAppend(w.spool, [r]);
    assert TotalBytes([r]) == LineBytes(r) by { assert TotalBytes([r][1..]) == 0; }
    hide Bounded, Overflow, TotalBytes, Fits;
    assert Ids(w.spool) + {eventId} <= Ids(w'.spool) + w'.evicted;
  }

  lemma PostKeeps(w: World, worker: nat, answer: Answer)
    requires Inv(w) && worker in w.drains && w.drains[worker].todo != []
    ensures Inv(AfterPost(w, worker, answer))
    ensures Conserved(w) ==> Conserved(AfterPost(w, worker, answer))
  {
    hide PostNext, TotalBytes;
    PostNextSound(w.drains[worker], answer, w.enqueued, w.acked);
  }

  lemma ReconcileKeeps(w: World, worker: nat, deadWriteOk: bool, spoolWriteOk: bool)
    requires Inv(w) && worker in w.drains
    ensures Inv(AfterReconcile(w, worker, deadWriteOk, spoolWriteOk))
    ensures deadWriteOk && Conserved(w) ==> Conserved(AfterReconcile(w, worker, deadWriteOk, spoolWriteOk))
  {
    hide LineBytes, TotalBytes, Applied, Bounded, Overflow;
    var d := w.drains[worker];
    AppliedFacts(w.spool, d, w.enqueued, w.acked);
    CappedFacts(Applied(w.spool, d));
    CappedFacts(w.dead + d.dead);
    IdsAppend(w.dead, d.dead);
    if deadWriteOk && Conserved(w) {
      var w' := AfterReconcile(w, worker, deadWriteOk, spoolWriteOk);
      assert Ids(w.dead) + Ids(d.dead) <= Ids(w'.dead) + w'.evicted;
      assert !NothingLearnt(d) && spoolWriteOk ==> Ids(Applied(w.spool, d)) <= Ids(w'.spool) + w'.evicted;
      assert Ids(w.spool) <= Ids(w'.spool) + w'.evicted + d.delivered + Ids(d.dead);
      assert d.delivered <= w'.acked;
    }
  }

  lemma ReplayKeeps(w: World, tenant: Option<string>, now: nat, crashed: bool)
    requires Inv(w)
    ensures Inv(AfterReplay(w, tenant, now, crashed))
    ensures Conserved(w) ==> Conserved(AfterReplay(w, tenant, now, crashed))
  {
    hide LineBytes, TotalBytes, Bounded, Overflow, Chosen;
    ChosenSplits(tenant, w.dead);
    var selected, left := Chosen(tenant, w.dead, true), Chosen(tenant, w.dead, false);
    ResetAllFacts(selected, now, w.enqueued);
    CappedFacts(w.spool + ResetAll(selected, now));
    IdsAppend(w.spool, ResetAll(selected, now));
    assert Ids(w.dead) == Ids(selected) + Ids(left) by {
      assert forall r :: r in w.dead <==> r in selected || r in left;
    }
  }

  lemma NextKeeps(w: World, s: Step)
    requires Inv(w)
    ensures Inv(Next(w, s))
    ensures Conserved(w) && (s.Reconcile? ==> s.deadWriteOk) ==> Conserved(Next(w, s))
  {
    hide AfterEnqueue, AfterPost, AfterReconcile, AfterReplay, TotalBytes, Fits;
    match s {
      case Enqueue(eventId, payload, now) => EnqueueKeeps(w, eventId, payload, now);
      case Post(worker, answer) =>
        if worker in w.drains && w.drains[worker].todo != [] { PostKeeps(w, worker, answer); }
      case Reconcile(worker, deadWriteOk, spoolWriteOk) =>
        if worker in w.drains { ReconcileKeeps(w, worker, deadWriteOk, spoolWriteOk); }
      case Replay(tenant, now, crashed) => ReplayKeeps(w, tenant, now, crashed);
      case _ =>
    }
  }

  predicate DeadWritesSucceed(steps: seq<Step>) {
    forall s :: s in steps && s.Reconcile? ==> s.deadWriteOk
  }

  lemma {:induction false} RunKeeps(w: World, steps: seq<Step>)
    requires Inv(w)
    ensures Inv(Run(w, steps))
    ensures Conserved(w) && DeadWritesSucceed(steps) ==> Conserved(Run(w, steps))
    decreases |steps|
  {
    hide Inv, Conserved, Next;
    if steps != [] {
      NextKeeps(w, steps[0]);
      RunKeeps(Next(w, steps[0]), steps[1..]);
      assert steps[0] in steps && forall s :: s in steps[1..] ==> s in steps;
    }
  }

  /** Conservation: whatever the interleaving, every event ever enqueued is in the spool, in the dead
      file, acknowledged with a 2xx, or was dropped by the bound. Every copy anywhere still carries the
      payload it was enqueued with, both files respect their byte cap, and no spooled record has used
      up its attempts. */
  lemma NothingIsLost(steps: seq<Step>)
    requires DeadWritesSucceed(steps)
    ensures var w := Run(EMPTY, steps);
            && (forall e :: e in w.enqueued ==> Accounted(w, e.0))
            && (forall r :: r in w.spool || r in w.dead ==> CopyOf(w.enqueued, r))
            && (forall r :: r in w.spool ==> r.attempts < MAX_ATTEMPTS)
            && TotalBytes(w.spool) <= MAX_SPOOL_BYTES
            && Fits(w.dead, MAX_SPOOL_RECORDS, MAX_SPOOL_BYTES)
  {
    assert Inv(EMPTY) && Conserved(EMPTY);
    RunKeeps(EMPTY, steps);
  }

  /** With event ids that are never reused, an event that is not acknowledged or dropped is still on
      disk under its own payload. */
  lemma UndeliveredEventsKeepTheirPayload(steps: seq<Step>, eventId: string, payload: string)
    requires DeadWritesSucceed(steps)
    requires var w := Run(EMPTY, steps);
             && (eventId, payload) in w.enqueued
             && (forall p :: (eventId, p) in w.enqueued ==> p == payload)
             && eventId !in w.acked && eventId !in w.evicted
    ensures var w := Run(EMPTY, steps);
            exists r :: (r in w.spool || r in w.dead) && r.eventId == eventId && r.payload == payload
  {
    NothingIsLost(steps);
    var w := Run(EMPTY, steps);
    assert Accounted(w, (eventId, payload).0);
    var r :| (r in w.spool || r in w.dead) && r.eventId == eventId;
    assert CopyOf(w.enqueued, r);
  }

  /** An acknowledgement is a 2xx answer to a post of the event, under the payload it was enqueued with. */
  lemma AckedMeansDelivered(w: World, s: Step, eventId: string)
    requires Inv(w) && eventId in Next(w, s).acked && eventId !in w.acked
    ensures s.Post? && IsDelivered(s.answer.outcome) && s.worker in w.drains
    ensures var todo := w.drains[s.worker].todo;
            todo != [] && todo[0].eventId == eventId && CopyOf(w.enqueued, todo[0])
  {
    hide Describe, TotalBytes, Bounded, Overflow, PowerOfTwo;
    assert s.Post? && s.worker in w.drains;
    var d := w.drains[s.worker];
    assert DrainSound(w.enqueued, w.acked, d);
    assert d.todo[0] in d.todo;
  }

  // ----- reconcile against stale snapshots ------------------------------------------------------------

  function EventIds(records: seq<SpoolRecord>): seq<string> {
    if records == [] then [] else [records[0].eventId] + EventIds(records[1..])
  }

  lemma {:induction false} EventIdsAppend(a: seq<SpoolRecord>, b: seq<SpoolRecord>)
    ensures EventIds(a + b) == EventIds(a) + EventIds(b)
  {
    if a == [] {
      assert a + b == b;
    } else {
      assert (a + b)[1..] == a[1..] + b;
      EventIdsAppend(a[1..], b);
    }
  }

  lemma OneEventId(r: SpoolRecord)
    ensures EventIds([r]) == [r.eventId]
  {
    assert [r][1..] == [];
  }

  lemma {:induction false} AppliedAddsNothing(records: seq<SpoolRecord>, d: Drain)
    requires forall k :: k in d.updated ==> d.updated[k].eventId == k
    ensures multiset(EventIds(Applied(records, d))) <= multiset(EventIds(records))
  {
    if records != [] {
      AppliedAddsNothing(records[1..], d);
      var r, rest := records[0], Applied(records[1..], d);
      EventIdsAppend([r], records[1..]);
      OneEventId(r);
      assert [r] + records[1..] == records;
      if Applied(records, d) != rest {
        var r' := if r.eventId in d.updated then d.updated[r.eventId] else r;
        assert Applied(records, d) == [r'] + rest;
        OneEventId(r');
        hide EventIds, Applied;
        EventIdsAppend([r'], rest);
      }
    }
  }

  /** No reconcile, however stale its snapshot, brings back a record another step removed: each event
      id occurs in the spool at most as often as before. */
  lemma ReconcileResurrectsNothing(w: World, worker: nat, deadWriteOk: bool, spoolWriteOk: bool)
    requires Inv(w) && worker in w.drains
    ensures multiset(EventIds(AfterReconcile(w, worker, deadWriteOk, spoolWriteOk).spool)) <= multiset(EventIds(w.spool))
  {
    hide TotalBytes, Applied, LineBytes;
    var d := w.drains[worker];
    assert DrainSound(w.enqueued, w.acked, d);
    AppliedAddsNothing(w.spool, d);
    var kept := Applied(w.spool, d);
    BoundedSplits(kept, MAX_SPOOL_RECORDS, MAX_SPOOL_BYTES);
    EventIdsAppend(Overflow(kept, MAX_SPOOL_RECORDS, MAX_SPOOL_BYTES), Capped(kept));
  }

  // ----- what a failed dead-letter write costs -----------------------------------------------------------

  ghost predicate DeadAlreadyAccounted(w: World, d: Drain) {
    forall k :: k in Ids(w.spool) && k in Ids(d.dead) ==> k in Ids(w.dead) || k in w.acked || k in w.evicted
  }

  /** Reconcile rewrites the spool even when the dead-letter write failed. Nothing is lost by that
      exactly when every spooled record it dead-letters is already accounted for elsewhere. */
  lemma FailedDeadWriteConserves(w: World, worker: nat)
    requires Inv(w) && Conserved(w) && worker in w.drains
    ensures Conserved(AfterReconcile(w, worker, false, true)) <==> DeadAlreadyAccounted(w, w.drains[worker])
  {
    hide LineBytes, TotalBytes, Applied, Bounded, Overflow, Fits;
    var d := w.drains[worker];
    var w' := AfterReconcile(w, worker, false, true);
    AppliedFacts(w.spool, d, w.enqueued, w.acked);
    CappedFacts(Applied(w.spool, d));
    if DeadAlreadyAccounted(w, d) {
      forall e | e in w.enqueued ensures Accounted(w', e.0) {
        var k := e.0;
        assert Accounted(w, k);
        assert w'.acked == w.acked && w'.dead == w.dead && w.evicted <= w'.evicted;
        assert !NothingLearnt(d) ==> Ids(Applied(w.spool, d)) <= Ids(w'.spool) + w'.evicted;
        if k in Ids(w.spool) {
          assert k in Ids(d.dead) ==> k in Ids(w.dead) || k in w.acked || k in w.evicted;
          assert k in d.delivered ==> k in w.acked;
          assert k !in d.delivered && k !in Ids(d.dead) ==> k in Ids(Applied(w.spool, d));
        }
      }
    }
    if Conserved(w') {
      forall k | k in Ids(w.spool) && k in Ids(d.dead)
        ensures k in Ids(w.dead) || k in w.acked || k in w.evicted
      {
        var r :| r in w.spool && r.eventId == k;
        assert CopyOf(w.enqueued, r);
        assert Accounted(w', (r.eventId, r.payload).0);
      }
    }
  }

  /** What the process holding the lock can check: a failed dead-letter write costs nothing when every record it
      dead-letters and still finds spooled is in the dead-letter file already. */
  lemma FailedDeadWriteIsHarmless(w: World, worker: nat)
    requires Inv(w) && Conserved(w) && worker in w.drains
    requires forall k :: k in Ids(w.spool) && k in Ids(w.drains[worker].dead) ==> k in Ids(w.dead)
    ensures Conserved(AfterReconcile(w, worker, false, true))
  {
    hide AfterReconcile, Conserved, Inv;
    FailedDeadWriteConserves(w, worker);
  }

  /** One event, spooled, looked at once and rejected for good. */
  lemma RejectedOnce(r: SpoolRecord)
    requires r == Fresh("e", "", 0)
    ensures var w := Next(Next(Next(EMPTY, Enqueue("e", "", 0)), Snapshot(0, true, 0)), Post(0, Answer(Status(401), 0)));
            && w.spool == [r] && w.dead == [] && w.acked == {} && w.evicted == {} && w.enqueued == {("e", "")}
            && w.drains.Keys == {0} && w.drains[0].delivered == {}
            && w.drains[0].dead == [r.(lastError := Some(Describe(Status(401))))]
  {
    hide LineBytes, Describe, Bounded, Overflow;
    OutboxSizes.SmallRecordBytes(r);
    assert [] + [r] == [r] && [r][1..] == [];
    var w1 := Next(EMPTY, Enqueue("e", "", 0));
    assert w1.spool == [r] && w1.evicted == {};
  }

  /** One event, rejected for good while the dead-letter file cannot be written, is gone. */
  lemma FailedDeadWriteLoses()
    ensures var w := Run(EMPTY, [Enqueue("e", "", 0), Snapshot(0, true, 0), Post(0, Answer(Status(401), 0)),
                                 Reconcile(0, false, true)]);
            ("e", "") in w.enqueued && !Accounted(w, "e")
  {
    hide LineBytes, Describe, Run, TotalBytes;
    var r := Fresh("e", "", 0);
    RunFour(EMPTY, Enqueue("e", "", 0), Snapshot(0, true, 0), Post(0, Answer(Status(401), 0)), Reconcile(0, false, true));
    RejectedOnce(r);
    var w3 := Next(Next(Next(EMPTY, Enqueue("e", "", 0)), Snapshot(0, true, 0)), Post(0, Answer(Status(401), 0)));
    hide PostNext, NewDrain, AfterPost, AfterEnqueue;
    LosesTheRejected(w3, r);
  }

  lemma LosesTheRejected(w: World, r: SpoolRecord)
    requires w.spool == [r] && w.dead == [] && w.acked == {} && w.evicted == {}
    requires 0 in w.drains && exists x :: x in w.drains[0].dead && x.eventId == r.eventId
    ensures var w' := Next(w, Reconcile(0, false, true));
            w'.enqueued == w.enqueued && w'.spool == [] && !Accounted(w', r.eventId)
  {
    hide LineBytes;
    assert [r][1..] == [];
    assert Applied([r], w.drains[0]) == [];
  }

  lemma RunFour(w: World, a: Step, b: Step, c: Step, d: Step)
    ensures Run(w, [a, b, c, d]) == Next(Next(Next(Next(w, a), b), c), d)
  {
    hide Next;
    assert [a, b, c, d][1..] == [b, c, d] && [b, c, d][1..] == [c, d] && [c, d][1..] == [d] && [d][1..] == [];
    assert Run(Next(Next(Next(w, a), b), c), [d]) == Next(Next(Next(Next(w, a), b), c), d);
    assert Run(Next(Next(w, a), b), [c, d]) == Run(Next(Next(Next(w, a), b), c), [d]);
    assert Run(Next(w, a), [b, c, d]) == Run(Next(Next(w, a), b), [c, d]);
  }
}
