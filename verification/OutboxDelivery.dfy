/** Delivery terminates: forced passes of a single drainer empty the spool. */
module OutboxDelivery {
  import opened Spool
  import opened Outbox
  import opened OutboxProtocol

  /** One forced pass of worker 0: the clock at its start, and an answer for each record. */
  datatype Pass = Pass(now: nat, answers: seq<Answer>)

  ghost function Posts(answers: seq<Answer>): seq<Step> {
    if answers == [] then [] else [Step.Post(0, answers[0])] + Posts(answers[1..])
  }

  ghost function PassSteps(p: Pass): seq<Step> {
    [Snapshot(0, true, p.now)] + Posts(p.answers) + [Reconcile(0, true, true)]
  }

  ghost function AllSteps(passes: seq<Pass>): seq<Step> {
    if passes == [] then [] else PassSteps(passes[0]) + AllSteps(passes[1..])
  }

  /** No pass is cut short by its time budget: there is an answer for every record it finds. */
  ghost predicate Complete(w: World, passes: seq<Pass>)
    decreases |passes|
  {
    passes == [] ||
    (|passes[0].answers| >= |w.spool| && Complete(Run(w, PassSteps(passes[0])), passes[1..]))
  }

  lemma {:induction false} RunAppend(w: World, a: seq<Step>, b: seq<Step>)
    ensures Run(w, a + b) == Run(Run(w, a), b)
    decreases |a|
  {
    hide Next;
    if a == [] {
      assert a + b == b;
    } else {
      assert (a + b)[1..] == a[1..] + b;
      RunAppend(Next(w, a[0]), a[1..], b);
    }
  }

  lemma {:induction false} RunPosts(w: World, answers: seq<Answer>)
    requires 0 in w.drains && w.drains[0].delivered <= w.acked
    ensures var w' := Run(w, Posts(answers));
            && w'.drains == w.drains[0 := PostAll(w.drains[0], answers)]
            && w'.spool == w.spool && w'.dead == w.dead && w'.evicted == w.evicted
            && w'.drains[0].delivered <= w'.acked
    decreases |answers|
  {
    hide PostNext;
    var steps := Posts(answers);
    if answers != [] {
      assert steps[1..] == Posts(answers[1..]);
      var w1 := Next(w, steps[0]);
      RunPosts(w1, answers[1..]);
      if w.drains[0].todo == [] {
        assert PostAll(w.drains[0], answers[1..]) == w.drains[0];
      }
    }
  }

  // ----- what one drain learns ----------------------------------------------------------------------

  ghost predicate Learnt(d: Drain, eventId: string) {
    eventId in d.delivered || eventId in Ids(d.dead) || eventId in d.updated
  }

  /** What is known of a drain that started from `snapshot`: deferred records are snapshot records
      with one more attempt. */
  ghost predicate Tracks(d: Drain, snapshot: seq<SpoolRecord>) {
    && (forall r :: r in d.todo ==> r in snapshot)
    && forall k :: k in d.updated ==> Deferred(d.updated[k], snapshot, k)
  }

  ghost predicate Deferred(u: SpoolRecord, snapshot: seq<SpoolRecord>, eventId: string) {
    exists r :: r in snapshot && r.eventId == eventId == u.eventId && r.payload == u.payload && u.attempts == r.attempts + 1
  }

  lemma PostNextLearns(d: Drain, a: Answer, snapshot: seq<SpoolRecord>)
    requires d.force && d.todo != [] && Tracks(d, snapshot)
    ensures Tracks(PostNext(d, a), snapshot) && PostNext(d, a).force
    ensures Learnt(PostNext(d, a), d.todo[0].eventId)
    ensures forall k :: Learnt(d, k) ==> Learnt(PostNext(d, a), k)
  {
    hide Describe, PowerOfTwo, ByteSum, IsDelivered, IsPermanent;
    var d', r := PostNext(d, a), d.todo[0];
    assert r in d.todo;
    if d'.dead != d.dead {
      var last := d'.dead[|d.dead|];
      IdsAppend(d.dead, [last]);
      assert d'.dead == d.dead + [last] && last in d'.dead;
    }
    if d'.updated != d.updated {
      assert r in snapshot && Deferred(d'.updated[r.eventId], snapshot, r.eventId);
    }
  }

  lemma {:induction false} PostAllLearns(d: Drain, answers: seq<Answer>, snapshot: seq<SpoolRecord>)
    requires d.force && |answers| >= |d.todo| && Tracks(d, snapshot)
    ensures Tracks(PostAll(d, answers), snapshot)
    ensures forall r :: r in d.todo ==> Learnt(PostAll(d, answers), r.eventId)
    ensures forall k :: Learnt(d, k) ==> Learnt(PostAll(d, answers), k)
    decreases |answers|
  {
    hide Learnt, Tracks;
    if d.todo != [] {
      PostNextLearns(d, answers[0], snapshot);
      var d' := PostNext(d, answers[0]);
      assert d'.todo == d.todo[1..];
      PostAllLearns(d', answers[1..], snapshot);
      assert forall r :: r in d.todo ==> r == d.todo[0] || r in d'.todo;
    }
  }

  lemma {:induction false} AppliedDefers(records: seq<SpoolRecord>, d: Drain, snapshot: seq<SpoolRecord>)
    requires Tracks(d, snapshot) && forall r :: r in records ==> Learnt(d, r.eventId)
    ensures forall r :: r in Applied(records, d) ==> Deferred(r, snapshot, r.eventId)
  {
    hide Deferred;
    if records != [] {
      var r := records[0];
      assert r in records && forall x :: x in records[1..] ==> x in records;
      AppliedDefers(records[1..], d, snapshot);
      assert r.eventId in Ids(d.dead) <==> exists x :: x in d.dead && x.eventId == r.eventId;
      if r.eventId in d.updated {
        assert Deferred(d.updated[r.eventId], snapshot, r.eventId);
        DeferredId(d.updated[r.eventId], snapshot, r.eventId);
      }
    }
  }

  lemma DeferredId(u: SpoolRecord, snapshot: seq<SpoolRecord>, eventId: string)
    requires Deferred(u, snapshot, eventId)
    ensures u.eventId == eventId
  {
  }

  lemma PassRuns(w: World, p: Pass)
    requires 0 !in w.drains && w.spool != []
    ensures Run(w, PassSteps(p)) == Next(Run(w.(drains := w.drains[0 := NewDrain(w.spool, true, p.now)]), Posts(p.answers)), Reconcile(0, true, true))
  {
    var s1, s2, s3 := [Snapshot(0, true, p.now)], Posts(p.answers), [Reconcile(0, true, true)];
    RunAppend(w, s1 + s2, s3);
    RunAppend(w, s1, s2);
    RunOne(w, s1[0]);
    RunOne(Run(w, s1 + s2), s3[0]);
  }

  lemma RunOne(w: World, s: Step)
    ensures Run(w, [s]) == Next(w, s)
  {
    hide Next;
    assert [s][1..] == [];
    assert Run(Next(w, s), []) == Next(w, s);
  }

  lemma EmptyPassRuns(w: World, p: Pass)
    requires 0 !in w.drains && w.spool == []
    ensures Run(w, PassSteps(p)) == w
  {
    var s1, s2, s3 := [Snapshot(0, true, p.now)], Posts(p.answers), [Reconcile(0, true, true)];
    RunAppend(w, s1 + s2, s3);
    RunAppend(w, s1, s2);
    RunOne(w, s1[0]);
    RunOne(Run(w, s1 + s2), s3[0]);
    IdlePosts(w, p.answers);
  }

  lemma {:induction false} IdlePosts(w: World, answers: seq<Answer>)
    requires 0 !in w.drains
    ensures Run(w, Posts(answers)) == w
    decreases |answers|
  {
    if answers != [] {
      assert Posts(answers)[1..] == Posts(answers[1..]);
      IdlePosts(w, answers[1..]);
    }
  }

  /** Where a record that was spooled before a pass is after it. */
  ghost predicate Handled(w: World, w': World, r: SpoolRecord) {
    || r.eventId in w'.acked
    || r.eventId in Ids(w'.dead)
    || r.eventId in w'.evicted
    || exists u :: u in w'.spool && Deferred(u, w.spool, r.eventId)
  }

  /** After a complete forced pass, every record left in the spool is a record that was there before, same payload,
      one attempt nearer its limit; and every record that was there is acknowledged, dead-lettered, evicted by the
      bound, or left in that way. */
  lemma PassProgress(w: World, p: Pass)
    requires Inv(w) && 0 !in w.drains && |p.answers| >= |w.spool|
    ensures var w' := Run(w, PassSteps(p));
            && 0 !in w'.drains && Inv(w')
            && (forall r :: r in w'.spool ==> Deferred(r, w.spool, r.eventId))
            && (forall r :: r in w.spool ==> Handled(w, w', r))
  {
    RunKeeps(w, PassSteps(p));
    if w.spool == [] {
      EmptyPassRuns(w, p);
    } else {
      PassRuns(w, p);
      var start := NewDrain(w.spool, true, p.now);
      var w1 := w.(drains := w.drains[0 := start]);
      RunPosts(w1, p.answers);
      ForcedDrain(w.spool, p.now, p.answers);
      hide *;
      ReconcileHandles(w, Run(w1, Posts(p.answers)));
    }
  }

  /** The reconcile that ends a pass. */
  lemma ReconcileHandles(w: World, w1: World)
    requires 0 in w1.drains && !NothingLearnt(w1.drains[0]) && w1.spool == w.spool
    requires w1.drains[0].delivered <= w1.acked && Tracks(w1.drains[0], w.spool)
    requires forall r :: r in w.spool ==> Learnt(w1.drains[0], r.eventId)
    requires forall r :: r in Capped(Applied(w.spool, w1.drains[0])) ==> Deferred(r, w.spool, r.eventId)
    ensures var w' := Next(w1, Reconcile(0, true, true));
            && 0 !in w'.drains
            && (forall r :: r in w'.spool ==> Deferred(r, w.spool, r.eventId))
            && (forall r :: r in w.spool ==> Handled(w, w', r))
  {
    hide Applied, Bounded, Overflow, Deferred, Tracks, Learnt, Handled;
    var w' := Next(w1, Reconcile(0, true, true));
    forall r | r in w.spool ensures Handled(w, w', r) {
      RecordHandled(w, w1, r);
    }
  }

  lemma RecordHandled(w: World, w1: World, r: SpoolRecord)
    requires 0 in w1.drains && !NothingLearnt(w1.drains[0]) && w1.spool == w.spool
    requires w1.drains[0].delivered <= w1.acked && Tracks(w1.drains[0], w.spool)
    requires r in w.spool && Learnt(w1.drains[0], r.eventId)
    ensures Handled(w, Next(w1, Reconcile(0, true, true)), r)
  {
    hide Applied, Bounded, Overflow, Deferred, Fits;
    var d := w1.drains[0];
    var w' := Next(w1, Reconcile(0, true, true));
    var kept := Applied(w.spool, d);
    CappedFacts(w1.dead + d.dead);
    IdsAppend(w1.dead, d.dead);
    if r.eventId !in d.delivered && r.eventId !in Ids(d.dead) {
      var u := d.updated[r.eventId];
      assert Deferred(u, w.spool, r.eventId);
      DeferredId(u, w.spool, r.eventId);
      UpdatedStays(w.spool, d, r);
      CappedSplits(kept, u);
    }
  }

  lemma CappedSplits(records: seq<SpoolRecord>, u: SpoolRecord)
    requires u in records
    ensures u in Capped(records) || u.eventId in Dropped(records)
  {
    hide Bounded, Overflow, Fits;
    BoundedSplits(records, MAX_SPOOL_RECORDS, MAX_SPOOL_BYTES);
  }

  lemma {:induction false} UpdatedStays(records: seq<SpoolRecord>, d: Drain, r: SpoolRecord)
    requires r in records && r.eventId !in d.delivered && r.eventId !in Ids(d.dead) && r.eventId in d.updated
    ensures d.updated[r.eventId] in Applied(records, d)
  {
    if r != records[0] {
      UpdatedStays(records[1..], d, r);
    }
  }

  lemma ForcedDrain(spool: seq<SpoolRecord>, now: nat, answers: seq<Answer>)
    requires spool != [] && |answers| >= |spool|
    ensures var d := PostAll(NewDrain(spool, true, now), answers);
            && !NothingLearnt(d) && Tracks(d, spool)
            && (forall r :: r in spool ==> Learnt(d, r.eventId))
            && (forall r :: r in Capped(Applied(spool, d)) ==> Deferred(r, spool, r.eventId))
  {
    hide Bounded, Overflow, PostAll, Deferred, Applied;
    var start := NewDrain(spool, true, now);
    var d := PostAll(start, answers);
    PostAllLearns(start, answers, spool);
    AppliedDefers(spool, d, spool);
    assert spool[0] in spool && Learnt(d, spool[0].eventId);
    CappedFacts(Applied(spool, d));
  }

  lemma {:induction false} PassesRaiseAttempts(w: World, passes: seq<Pass>, floor: nat)
    requires Inv(w) && 0 !in w.drains && Complete(w, passes)
    requires forall r :: r in w.spool ==> r.attempts >= floor
    ensures Inv(Run(w, AllSteps(passes)))
    ensures forall r :: r in Run(w, AllSteps(passes)).spool ==> r.attempts >= floor + |passes|
    decreases |passes|
  {
    hide Inv, PassSteps;
    if passes != [] {
      PassProgress(w, passes[0]);
      var w' := Run(w, PassSteps(passes[0]));
      PassesRaiseAttempts(w', passes[1..], floor + 1);
      RunAppend(w, PassSteps(passes[0]), AllSteps(passes[1..]));
    }
  }

  lemma SomeElement(records: seq<SpoolRecord>)
    ensures records == [] || exists r :: r in records
  {
    if records != [] { assert records[0] in records; }
  }

  /** From any reachable spool, ten complete forced passes with nothing enqueued or replayed in between
      leave the spool empty. */
  lemma TenPassesEmptyTheSpool(w: World, passes: seq<Pass>)
    requires Inv(w) && 0 !in w.drains && Complete(w, passes) && |passes| == MAX_ATTEMPTS
    ensures Run(w, AllSteps(passes)).spool == []
  {
    PassesRaiseAttempts(w, passes, 0);
    var w' := Run(w, AllSteps(passes));
    hide Run, AllSteps, Complete, TotalBytes;
    assert forall r :: r in w'.spool ==> MAX_ATTEMPTS <= r.attempts < MAX_ATTEMPTS;
    SomeElement(w'.spool);
  }
}
