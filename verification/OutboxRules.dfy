/** What a drain and a replay do to single records, read off the answers and the clock alone. */
module OutboxRules {
  import opened Wrappers
  import opened Text
  import opened Json
  import JsonParse
  import opened Spool
  import opened Outbox
  import OutboxSizes

  // ----- one drain ----------------------------------------------------------------------------------------------

  /** The record at one place is posted: the drain is forced, or its time has come. */
  predicate Posted(snapshot: seq<SpoolRecord>, force: bool, now: nat, i: nat) {
    i < |snapshot| && (force || snapshot[i].nextAttemptMs <= now)
  }

  predicate Accepts(a: Answer) {
    a.outcome.Status? && 200 <= a.outcome.code <= 299
  }

  predicate Rejects(a: Answer) {
    a.outcome.Status? && (a.outcome.code == 400 || a.outcome.code == 401 || a.outcome.code == 403
                          || a.outcome.code == 413 || a.outcome.code == 422)
  }

  function Reason(o: Outcome): string {
    if o.Status? then "http " + Decimal(o.code) else o.error
  }

  /** Two seconds after the first failure, twice as long after each further one, and at most 256. */
  function Backoff(attempts: nat): nat
    requires attempts > 0
  {
    [2_000, 4_000, 8_000, 16_000, 32_000, 64_000, 128_000, 256_000][if attempts > 8 then 7 else attempts - 1]
  }

  /** A record after one more failure: one attempt more, the reason, a later time, and nothing else. */
  predicate Retried(u: SpoolRecord, r: SpoolRecord, a: Answer) {
    && u.eventId == r.eventId && u.payload == r.payload && u.createdMs == r.createdMs
    && u.attempts == r.attempts + 1
    && u.lastError == Some(Reason(a.outcome))
    && a.now + Backoff(u.attempts) <= u.nextAttemptMs < a.now + Backoff(u.attempts) + 1_000
  }

  lemma PowersOfTwo()
    ensures PowerOfTwo(1) == 2 && PowerOfTwo(2) == 4 && PowerOfTwo(3) == 8 && PowerOfTwo(4) == 16
    ensures PowerOfTwo(5) == 32 && PowerOfTwo(6) == 64 && PowerOfTwo(7) == 128 && PowerOfTwo(8) == 256
  {
    assert PowerOfTwo(4) == 2 * PowerOfTwo(3) == 16;
    assert PowerOfTwo(8) == 2 * PowerOfTwo(7) == 4 * PowerOfTwo(6) == 8 * PowerOfTwo(5) == 16 * PowerOfTwo(4);
  }

  /** A failed attempt is retried so; the cap of five minutes is never reached. */
  lemma DeferRetries(r: SpoolRecord, a: Answer)
    ensures Retried(Defer(r, Describe(a.outcome), a.now), r, a)
  {
    PowersOfTwo();
    hide PowerOfTwo, ByteSum, Decimal;
    var attempts := r.attempts + 1;
    assert 1_000 * PowerOfTwo(Min(attempts, 8)) == Backoff(attempts);
  }

  predicate Fails(r: SpoolRecord, a: Answer) {
    !Accepts(a) && !Rejects(a) && r.attempts + 1 < 10
  }

  /** Rejected for good, or out of attempts. */
  predicate Buried(x: SpoolRecord, r: SpoolRecord, a: Answer) {
    if Rejects(a) then x == r.(lastError := Some(Reason(a.outcome)))
    else !Accepts(a) && r.attempts + 1 >= 10 && Retried(x, r, a)
  }

  /** Some record that is posted meets a test together with its answer. */
  ghost predicate Any(snapshot: seq<SpoolRecord>, answers: seq<Answer>, force: bool, now: nat, test: (SpoolRecord, Answer) -> bool) {
    exists i: nat :: Posted(snapshot, force, now, i) && i < |answers| && test(snapshot[i], answers[i])
  }

  function Delivering(id: string): (SpoolRecord, Answer) -> bool {
    (r: SpoolRecord, a: Answer) => r.eventId == id && Accepts(a)
  }

  function Failing(id: string): (SpoolRecord, Answer) -> bool {
    (r: SpoolRecord, a: Answer) => r.eventId == id && Fails(r, a)
  }

  function Burying(id: string): (SpoolRecord, Answer) -> bool {
    (r: SpoolRecord, a: Answer) => r.eventId == id && !Accepts(a) && !Fails(r, a)
  }

  function RetriedAs(u: SpoolRecord): (SpoolRecord, Answer) -> bool {
    (r: SpoolRecord, a: Answer) => Fails(r, a) && Retried(u, r, a)
  }

  function BuriedAs(x: SpoolRecord): (SpoolRecord, Answer) -> bool {
    (r: SpoolRecord, a: Answer) => Buried(x, r, a)
  }

  lemma AnySplits(r: SpoolRecord, rest: seq<SpoolRecord>, a: Answer, answers: seq<Answer>, force: bool, now: nat,
                   test: (SpoolRecord, Answer) -> bool)
    ensures Any([r] + rest, [a] + answers, force, now, test)
            <==> ((force || r.nextAttemptMs <= now) && test(r, a)) || Any(rest, answers, force, now, test)
  {
    var all, every := [r] + rest, [a] + answers;
    if (force || r.nextAttemptMs <= now) && test(r, a) {
      assert Posted(all, force, now, 0) && test(all[0], every[0]);
    }
    if Any(rest, answers, force, now, test) {
      var i: nat :| Posted(rest, force, now, i) && i < |answers| && test(rest[i], answers[i]);
      assert all[i + 1] == rest[i] && every[i + 1] == answers[i];
      assert Posted(all, force, now, i + 1);
    }
    if Any(all, every, force, now, test) {
      var i: nat :| Posted(all, force, now, i) && i < |every| && test(all[i], every[i]);
      if i > 0 {
        assert all[i] == rest[i - 1] && every[i] == answers[i - 1];
        assert Posted(rest, force, now, i - 1);
      }
    }
  }

  /** What a drain has learnt, against what it had. */
  ghost predicate Learns(d: Drain, d': Drain, snapshot: seq<SpoolRecord>, answers: seq<Answer>) {
    && (forall id :: id in d'.delivered <==> id in d.delivered || Any(snapshot, answers, d.force, d.started, Delivering(id)))
    && (forall id :: id in d'.updated <==> id in d.updated || Any(snapshot, answers, d.force, d.started, Failing(id)))
    && (forall id :: id in Ids(d'.dead) <==> id in Ids(d.dead) || Any(snapshot, answers, d.force, d.started, Burying(id)))
    && (forall id :: id in d'.updated ==>
          (id in d.updated && d'.updated[id] == d.updated[id])
          || (d'.updated[id].eventId == id && Any(snapshot, answers, d.force, d.started, RetriedAs(d'.updated[id]))))
    && (forall x :: x in d'.dead ==> x in d.dead || Any(snapshot, answers, d.force, d.started, BuriedAs(x)))
  }

  /** The effect of looking at one record, in the same terms. */
  ghost predicate LearnsOne(d: Drain, d': Drain, r: SpoolRecord, a: Answer) {
    d'.force == d.force && d'.started == d.started && LearnsIds(d, d', r, a) && LearnsRecords(d, d', r, a)
  }

  ghost predicate LearnsIds(d: Drain, d': Drain, r: SpoolRecord, a: Answer) {
    var posted := d.force || r.nextAttemptMs <= d.started;
    && (forall id :: id in d'.delivered <==> id in d.delivered || (posted && Delivering(id)(r, a)))
    && (forall id :: id in d'.updated <==> id in d.updated || (posted && Failing(id)(r, a)))
    && (forall id :: id in Ids(d'.dead) <==> id in Ids(d.dead) || (posted && Burying(id)(r, a)))
  }

  ghost predicate LearnsRecords(d: Drain, d': Drain, r: SpoolRecord, a: Answer) {
    var posted := d.force || r.nextAttemptMs <= d.started;
    && (forall id :: id in d'.updated ==>
          (id in d.updated && d'.updated[id] == d.updated[id])
          || (d'.updated[id].eventId == id && posted && RetriedAs(d'.updated[id])(r, a)))
    && (forall x :: x in d'.dead ==> x in d.dead || (posted && BuriedAs(x)(r, a)))
  }

  lemma DeadAdded(dead: seq<SpoolRecord>, last: SpoolRecord)
    ensures forall x :: x in dead + [last] <==> x in dead || x == last
    ensures forall id :: id in Ids(dead + [last]) <==> id in Ids(dead) || id == last.eventId
  {
    forall id ensures id in Ids(dead + [last]) <==> id in Ids(dead) || id == last.eventId {
      assert last in dead + [last];
      assert forall x :: x in dead + [last] <==> x in dead || x == last;
    }
  }

  /** What one record comes to. */
  lemma OneOutcome(d: Drain, r: SpoolRecord, a: Answer)
    requires d.todo != [] && d.todo[0] == r
    ensures var d' := PostNext(d, a);
            var posted := d.force || r.nextAttemptMs <= d.started;
            && d'.force == d.force && d'.started == d.started && d'.todo == d.todo[1..]
            && d'.delivered == (if posted && Accepts(a) then d.delivered + {r.eventId} else d.delivered)
            && (posted && Fails(r, a) ==> Retried(Defer(r, Describe(a.outcome), a.now), r, a))
            && d'.updated == (if posted && Fails(r, a) then d.updated[r.eventId := Defer(r, Describe(a.outcome), a.now)] else d.updated)
            && (if posted && !Accepts(a) && !Fails(r, a)
                then exists x :: Buried(x, r, a) && x.eventId == r.eventId && d'.dead == d.dead + [x]
                else d'.dead == d.dead)
  {
    DeferRetries(r, a);
    hide Decimal, ByteSum, PowerOfTwo, Retried;
    assert Describe(a.outcome) == Reason(a.outcome);
    var d' := PostNext(d, a);
    if d'.dead != d.dead {
      assert d'.dead == d.dead + [d'.dead[|d.dead|]];
      assert Buried(d'.dead[|d.dead|], r, a);
    }
  }

  lemma NextLearnsIds(d: Drain, a: Answer)
    requires d.todo != []
    ensures LearnsIds(d, PostNext(d, a), d.todo[0], a)
  {
    var r, d' := d.todo[0], PostNext(d, a);
    OneOutcome(d, r, a);
    AcceptedDoesNotFail(r, a);
    hide PostNext, Retried, Defer, Buried, Ids, Accepts, Fails;
    if (d.force || r.nextAttemptMs <= d.started) && !Accepts(a) && !Fails(r, a) {
      var x :| Buried(x, r, a) && x.eventId == r.eventId && d'.dead == d.dead + [x];
      DeadAdded(d.dead, x);
    }
  }

  lemma NextLearnsRecords(d: Drain, a: Answer)
    requires d.todo != []
    ensures LearnsRecords(d, PostNext(d, a), d.todo[0], a)
  {
    var r, d' := d.todo[0], PostNext(d, a);
    OneOutcome(d, r, a);
    hide PostNext, Retried, Defer, Buried, Ids, Accepts, Fails;
    if (d.force || r.nextAttemptMs <= d.started) && !Accepts(a) && !Fails(r, a) {
      var x :| Buried(x, r, a) && x.eventId == r.eventId && d'.dead == d.dead + [x];
      DeadAdded(d.dead, x);
    }
  }

  lemma NextLearnsOne(d: Drain, a: Answer)
    requires d.todo != []
    ensures LearnsOne(d, PostNext(d, a), d.todo[0], a)
  {
    OneOutcome(d, d.todo[0], a);
    NextLearnsIds(d, a);
    NextLearnsRecords(d, a);
    hide PostNext, LearnsIds, LearnsRecords;
  }

  lemma AcceptedDoesNotFail(r: SpoolRecord, a: Answer)
    ensures !(Accepts(a) && Fails(r, a))
  {
  }

  lemma LearnsNothing(d: Drain)
    ensures Learns(d, d, [], [])
  {
  }

  /** One record, then the rest. */
  lemma LearnsOn(d: Drain, d1: Drain, d2: Drain, r: SpoolRecord, rest: seq<SpoolRecord>, a: Answer, answers: seq<Answer>)
    requires LearnsOne(d, d1, r, a) && Learns(d1, d2, rest, answers)
    ensures Learns(d, d2, [r] + rest, [a] + answers)
  {
    hide Any, Ids, Delivering, Failing, Burying, RetriedAs, BuriedAs;
    forall id
      ensures Any([r] + rest, [a] + answers, d.force, d.started, Delivering(id))
              <==> ((d.force || r.nextAttemptMs <= d.started) && Delivering(id)(r, a)) || Any(rest, answers, d.force, d.started, Delivering(id))
      ensures Any([r] + rest, [a] + answers, d.force, d.started, Failing(id))
              <==> ((d.force || r.nextAttemptMs <= d.started) && Failing(id)(r, a)) || Any(rest, answers, d.force, d.started, Failing(id))
      ensures Any([r] + rest, [a] + answers, d.force, d.started, Burying(id))
              <==> ((d.force || r.nextAttemptMs <= d.started) && Burying(id)(r, a)) || Any(rest, answers, d.force, d.started, Burying(id))
    {
      AnySplits(r, rest, a, answers, d.force, d.started, Delivering(id));
      AnySplits(r, rest, a, answers, d.force, d.started, Failing(id));
      AnySplits(r, rest, a, answers, d.force, d.started, Burying(id));
    }
    forall x
      ensures Any([r] + rest, [a] + answers, d.force, d.started, RetriedAs(x))
              <==> ((d.force || r.nextAttemptMs <= d.started) && RetriedAs(x)(r, a)) || Any(rest, answers, d.force, d.started, RetriedAs(x))
      ensures Any([r] + rest, [a] + answers, d.force, d.started, BuriedAs(x))
              <==> ((d.force || r.nextAttemptMs <= d.started) && BuriedAs(x)(r, a)) || Any(rest, answers, d.force, d.started, BuriedAs(x))
    {
      AnySplits(r, rest, a, answers, d.force, d.started, RetriedAs(x));
      AnySplits(r, rest, a, answers, d.force, d.started, BuriedAs(x));
    }
  }

  lemma {:induction false} AllLearn(d: Drain, answers: seq<Answer>)
    requires |answers| == |d.todo|
    ensures Learns(d, PostAll(d, answers), d.todo, answers)
    decreases |answers|
  {
    hide Learns, LearnsOne, PostNext;
    if d.todo == [] {
      LearnsNothing(d);
    } else {
      var d1 := PostNext(d, answers[0]);
      NextLearnsOne(d, answers[0]);
      assert d1.todo == d.todo[1..] by { OneOutcome(d, d.todo[0], answers[0]); }
      AllLearn(d1, answers[1..]);
      LearnsOn(d, d1, PostAll(d1, answers[1..]), d.todo[0], d.todo[1..], answers[0], answers[1..]);
      assert [d.todo[0]] + d.todo[1..] == d.todo && [answers[0]] + answers[1..] == answers;
    }
  }

  /** A drain that has an answer for every record learns an identifier exactly when some record of it has come due, or
      the drain is forced; it is delivered exactly when such a record was answered in the two hundreds. */
  lemma DrainLearnsWhatIsDue(snapshot: seq<SpoolRecord>, force: bool, now: nat, answers: seq<Answer>, id: string)
    requires |answers| == |snapshot|
    ensures var d := PostAll(NewDrain(snapshot, force, now), answers);
            && ((id in d.delivered || id in d.updated || id in Ids(d.dead))
                <==> exists i :: 0 <= i < |snapshot| && snapshot[i].eventId == id && (force || snapshot[i].nextAttemptMs <= now))
            && (id in d.delivered
                <==> exists i :: 0 <= i < |snapshot| && snapshot[i].eventId == id && (force || snapshot[i].nextAttemptMs <= now)
                                 && answers[i].outcome.Status? && 200 <= answers[i].outcome.code <= 299)
  {
    DrainLearns(snapshot, force, now, answers, id);
    AnyIs(snapshot, answers, force, now, Delivering(id));
    AnyIs(snapshot, answers, force, now, Failing(id));
    AnyIs(snapshot, answers, force, now, Burying(id));
    hide PostAll, Any, Ids, NewDrain;
    if i :| 0 <= i < |snapshot| && snapshot[i].eventId == id && (force || snapshot[i].nextAttemptMs <= now) {
      hide Accepts, Fails;
      assert Delivering(id)(snapshot[i], answers[i]) || Failing(id)(snapshot[i], answers[i]) || Burying(id)(snapshot[i], answers[i]);
    }
  }

  lemma DrainLearns(snapshot: seq<SpoolRecord>, force: bool, now: nat, answers: seq<Answer>, id: string)
    requires |answers| == |snapshot|
    ensures var d := PostAll(NewDrain(snapshot, force, now), answers);
            && (id in d.delivered <==> Any(snapshot, answers, force, now, Delivering(id)))
            && (id in d.updated <==> Any(snapshot, answers, force, now, Failing(id)))
            && (id in Ids(d.dead) <==> Any(snapshot, answers, force, now, Burying(id)))
  {
    var start := NewDrain(snapshot, force, now);
    AllLearn(start, answers);
    assert NothingLearnt(start) && Ids(start.dead) == {};
    hide PostAll, Any, Ids;
  }

  lemma AnyIs(snapshot: seq<SpoolRecord>, answers: seq<Answer>, force: bool, now: nat, test: (SpoolRecord, Answer) -> bool)
    requires |answers| == |snapshot|
    ensures Any(snapshot, answers, force, now, test)
            <==> exists i :: 0 <= i < |snapshot| && (force || snapshot[i].nextAttemptMs <= now) && test(snapshot[i], answers[i])
  {
    if i :| 0 <= i < |snapshot| && (force || snapshot[i].nextAttemptMs <= now) && test(snapshot[i], answers[i]) {
      assert Posted(snapshot, force, now, i);
    }
  }

  /** What is deferred is some due record that failed and has attempts left, with one attempt more, the reason, and a
      time two seconds to four and a quarter minutes on; what is dead-lettered is some due record that was rejected for
      good, or failed for the tenth time. */
  lemma DrainOutcomes(snapshot: seq<SpoolRecord>, force: bool, now: nat, answers: seq<Answer>)
    requires |answers| == |snapshot|
    ensures var d := PostAll(NewDrain(snapshot, force, now), answers);
            && (forall id :: id in d.updated ==>
                  exists i :: 0 <= i < |snapshot| && (force || snapshot[i].nextAttemptMs <= now) && snapshot[i].eventId == id
                              && Fails(snapshot[i], answers[i]) && Retried(d.updated[id], snapshot[i], answers[i]))
            && (forall x :: x in d.dead ==>
                  exists i :: 0 <= i < |snapshot| && (force || snapshot[i].nextAttemptMs <= now) && Buried(x, snapshot[i], answers[i]))
  {
    var start := NewDrain(snapshot, force, now);
    var d := PostAll(start, answers);
    AllLearn(start, answers);
    hide PostAll, Fails, Buried;
    forall id | id in d.updated
      ensures exists i :: 0 <= i < |snapshot| && (force || snapshot[i].nextAttemptMs <= now) && snapshot[i].eventId == id
                          && Fails(snapshot[i], answers[i]) && Retried(d.updated[id], snapshot[i], answers[i])
    {
      AnyIs(snapshot, answers, force, now, RetriedAs(d.updated[id]));
    }
    forall x | x in d.dead
      ensures exists i :: 0 <= i < |snapshot| && (force || snapshot[i].nextAttemptMs <= now) && Buried(x, snapshot[i], answers[i])
    {
      AnyIs(snapshot, answers, force, now, BuriedAs(x));
    }
  }

  lemma {:induction false} UntouchedStays(records: seq<SpoolRecord>, d: Drain, r: SpoolRecord)
    requires r in records && r.eventId !in d.delivered && r.eventId !in Ids(d.dead) && r.eventId !in d.updated
    ensures r in Applied(records, d)
  {
    if r != records[0] {
      UntouchedStays(records[1..], d, r);
    }
  }

  /** A record that is not due keeps all its fields through the reconcile of that drain, whatever the file has become
      meanwhile; only the bound can drop it. */
  lemma NotDueIsUntouched(snapshot: seq<SpoolRecord>, now: nat, answers: seq<Answer>, spool: seq<SpoolRecord>, r: SpoolRecord)
    requires |answers| == |snapshot| && r in spool
    requires forall i :: 0 <= i < |snapshot| && snapshot[i].eventId == r.eventId ==> snapshot[i].nextAttemptMs > now
    ensures var kept := Applied(spool, PostAll(NewDrain(snapshot, false, now), answers));
            r in kept && (r in Capped(kept) || r in Overflow(kept, MAX_SPOOL_RECORDS, MAX_SPOOL_BYTES))
  {
    hide PostAll, Bounded, Overflow, Applied, Fits;
    var d := PostAll(NewDrain(snapshot, false, now), answers);
    DrainLearnsWhatIsDue(snapshot, false, now, answers, r.eventId);
    UntouchedStays(spool, d, r);
    BoundedSplits(Applied(spool, d), MAX_SPOOL_RECORDS, MAX_SPOOL_BYTES);
  }

  /** An enqueued event that fits the spool by itself is in it, due at once and untried, whatever else has to go. */
  lemma NewIsInTheSpool(spool: seq<SpoolRecord>, id: string, payload: string, now: nat)
    requires LineBytes(SpoolRecord(id, payload, 0, now, None, now)) <= MAX_SPOOL_BYTES
    ensures SpoolRecord(id, payload, 0, now, None, now) in Enqueued(spool, Fresh(id, payload, now))
  {
    hide LineBytes, Bounded, Overflow;
    var r := Fresh(id, payload, now);
    var all := spool + [r];
    assert r in all && all[|spool|..] == [r];
    assert TotalBytes([r]) == LineBytes(r) by { assert [r][1..] == []; }
    BoundedSplits(all, MAX_SPOOL_RECORDS, MAX_SPOOL_BYTES);
    var over, kept := Overflow(all, MAX_SPOOL_RECORDS, MAX_SPOOL_BYTES), Capped(all);
    if |over| > |spool| {
      BoundedLongest(all, MAX_SPOOL_RECORDS, MAX_SPOOL_BYTES, |spool|);
      assert false;
    }
    assert kept != [] && kept[|kept| - 1] == (over + kept)[|all| - 1];
  }

  /** So the next drain, forced or not, delivers it if the server takes it. */
  lemma {:induction false} EnqueuedIsDelivered(spool: seq<SpoolRecord>, id: string, payload: string, now: nat,
                            force: bool, later: nat, answers: seq<Answer>)
    requires LineBytes(SpoolRecord(id, payload, 0, now, None, now)) <= MAX_SPOOL_BYTES && now <= later
    requires var snapshot := Enqueued(spool, Fresh(id, payload, now));
             && |answers| == |snapshot|
             && forall i :: 0 <= i < |snapshot| && snapshot[i].eventId == id
                  ==> answers[i].outcome.Status? && 200 <= answers[i].outcome.code <= 299
    ensures id in PostAll(NewDrain(Enqueued(spool, Fresh(id, payload, now)), force, later), answers).delivered
  {
    hide LineBytes, Enqueued, PostAll;
    NewIsInTheSpool(spool, id, payload, now);
    var snapshot := Enqueued(spool, Fresh(id, payload, now));
    var i :| 0 <= i < |snapshot| && snapshot[i] == SpoolRecord(id, payload, 0, now, None, now);
    DrainLearnsWhatIsDue(snapshot, force, later, answers, id);
  }

  // ----- one replay ---------------------------------------------------------------------------------------------

  lemma {:induction false} LastNamedIs(members: seq<Member>, key: string, v: Value)
    requires DistinctKeys(members) && Member(key, v) in members
    ensures LastNamed(members, key) == Some(v)
    decreases |members|
  {
    var i :| 0 <= i < |members| && members[i] == Member(key, v);
    if i < |members| - 1 {
      LastNamedIs(members[..|members| - 1], key, v);
    }
  }

  lemma {:induction false} NothingNamed(members: seq<Member>, key: string)
    requires forall m :: m in members ==> m.key != key
    ensures LastNamed(members, key) == None
    decreases |members|
  {
    if members != [] {
      NothingNamed(members[..|members| - 1], key);
    }
  }

  /** Whether a tenant name is proper. */
  predicate Proper(tenant: string) {
    tenant != "" && ByteLen(tenant) <= 128 && forall c :: c in tenant ==> !(c as int < 0x20 || 0x7F <= c as int < 0xA0)
  }

  /** A replay for one tenant selects a record whose payload is a printed object exactly when the object names that
      tenant, white space around it aside, and the name is proper; a replay for all selects every record. */
  lemma ReplaySelects(r: SpoolRecord, members: seq<Member>, u: string)
    requires WellFormed(Obj(members)) && JsonParse.Within(Obj(members), JsonParse.MAX_DEPTH) && r.payload == Print(Obj(members))
    ensures Selects(Some(u), r)
            <==> exists t :: Member("tenant_id", Str(t)) in members && Trim(t) == u && Proper(u)
    ensures Selects(None, r)
  {
    JsonParse.ParsePrint(Obj(members));
    TenantIsNamed(r.payload, members, u);
    hide Print, Trim, ByteLen, JsonParse.Parse, RecordTenant, Proper, LastNamed, JsonParse.Within, WellFormed;
    if m :| m in members && m.key == "tenant_id" {
      LastNamedIs(members, "tenant_id", m.value);
      forall t | Member("tenant_id", Str(t)) in members ensures m.value == Str(t) {
        LastNamedIs(members, "tenant_id", Str(t));
      }
    } else {
      NothingNamed(members, "tenant_id");
    }
  }

  lemma TenantIsNamed(payload: string, members: seq<Member>, u: string)
    requires JsonParse.Parse(payload) == Some(Obj(members))
    ensures RecordTenant(payload) == Some(u)
            <==> var named := LastNamed(members, "tenant_id");
                 named.Some? && named.value.Str? && Trim(named.value.s) == u && Proper(u)
  {
    hide Trim, ByteLen, JsonParse.Parse, LastNamed;
  }

  /** And a payload that is no JSON text is selected by no tenant. */
  lemma UnreadableIsNobodys(r: SpoolRecord, u: string)
    requires JsonParse.Parse(r.payload).None?
    ensures !Selects(Some(u), r)
  {
  }

  lemma {:induction false} ChosenAt(tenant: Option<string>, records: seq<SpoolRecord>, r: SpoolRecord)
    requires r in records
    ensures (r in Chosen(tenant, records, true) <==> Selects(tenant, r)) && (r in Chosen(tenant, records, false) <==> !Selects(tenant, r))
  {
    hide Selects;
    assert forall x :: x in records <==> x == records[0] || x in records[1..];
    if r in records[1..] {
      ChosenAt(tenant, records[1..], r);
    } else {
      ChosenOnly(tenant, records[1..], r, true);
      ChosenOnly(tenant, records[1..], r, false);
    }
  }

  lemma {:induction false} ChosenOnly(tenant: Option<string>, records: seq<SpoolRecord>, r: SpoolRecord, keep: bool)
    requires r !in records
    ensures r !in Chosen(tenant, records, keep)
  {
    hide Selects;
    if records != [] { ChosenOnly(tenant, records[1..], r, keep); }
  }

  lemma ResetIsIn(records: seq<SpoolRecord>, now: nat, r: SpoolRecord)
    requires r in records
    ensures Reset(r, now) in ResetAll(records, now)
  {
    var i :| 0 <= i < |records| && records[i] == r;
    assert ResetAll(records, now)[i] == Reset(r, now);
  }

  /** A replay is accepted exactly when the records it selects, as they stand, fit beside the spool. */
  lemma ReplayIsRefusedWhen(spool: seq<SpoolRecord>, selected: seq<SpoolRecord>)
    ensures ReplayRefused(spool, selected)
            <==> |spool| + |selected| > 10_000 || TotalBytes(spool) + TotalBytes(selected) > 16 * 1024 * 1024
  {
    hide LineBytes;
    TotalBytesAppend(spool, selected);
  }

  /** Where there is room, a replay gives a dated record that it selects a fresh start: it is in the spool with its
      event, its payload and its date, no attempt used, no error, due at once; and what is not selected stays in the
      dead-letter file. */
  lemma ReplayedStartsAfresh(spool: seq<SpoolRecord>, dead: seq<SpoolRecord>, tenant: Option<string>, now: nat, r: SpoolRecord)
    requires r in dead && forall x :: x in dead ==> x.createdMs != 0
    requires |spool| + |Chosen(tenant, dead, true)| <= 10_000
    requires TotalBytes(spool) + TotalBytes(Chosen(tenant, dead, true)) <= 16 * 1024 * 1024
    ensures Selects(tenant, r)
            ==> && !ReplayRefused(spool, Chosen(tenant, dead, true))
                && SpoolRecord(r.eventId, r.payload, 0, 0, None, r.createdMs) in Capped(spool + ResetAll(Chosen(tenant, dead, true), now))
    ensures r in Chosen(tenant, dead, false) <==> !Selects(tenant, r)
    ensures r in Chosen(tenant, dead, true) <==> Selects(tenant, r)
  {
    ReplayIsRefusedWhen(spool, Chosen(tenant, dead, true));
    hide Selects, Bounded, LineBytes, TotalBytes, Chosen, ResetAll, ReplayRefused;
    ChosenAt(tenant, dead, r);
    var selected := Chosen(tenant, dead, true);
    if Selects(tenant, r) {
      ResetIsIn(selected, now, r);
      assert Reset(r, now) == SpoolRecord(r.eventId, r.payload, 0, 0, None, r.createdMs);
      forall x | x in selected ensures x.createdMs != 0 {
        SelectedWasDead(tenant, dead, x);
      }
      OutboxSizes.ReplayAppendsExactly(spool, selected, now);
    }
  }

  lemma SelectedWasDead(tenant: Option<string>, dead: seq<SpoolRecord>, x: SpoolRecord)
    requires x in Chosen(tenant, dead, true)
    ensures x in dead
  {
    if x !in dead { ChosenOnly(tenant, dead, x, true); }
  }
}
