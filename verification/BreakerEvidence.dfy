/** What never counts for the circuit breaker: its own refusals, and events below the severities it looks at. */
module BreakerEvidence {
  import opened Wrappers
  import opened Breaker
  import opened BreakerRuns

  predicate Noise(c: Config, e: Event) {
    e.eventType == "session_quarantined" || e.severity !in c.severities
  }

  /** The events that are not noise. */
  function Quiet(c: Config, events: seq<Event>): seq<Event> {
    if events == [] then []
    else Quiet(c, events[..|events| - 1]) + if Noise(c, events[|events| - 1]) then [] else [events[|events| - 1]]
  }

  function QuietStep(c: Config, s: Step): Step {
    if s.Ingest? then Ingest(Quiet(c, s.arriving), Quiet(c, s.again), s.now) else s
  }

  /** The same run without the noise. */
  function QuietRun(c: Config, steps: seq<Step>): seq<Step> {
    if steps == [] then [] else [QuietStep(c, steps[0])] + QuietRun(c, steps[1..])
  }

  lemma {:induction false} QuietHas(c: Config, events: seq<Event>, e: Event)
    ensures e in Quiet(c, events) <==> e in events && !Noise(c, e)
  {
    hide Noise;
    if events != [] {
      QuietHas(c, events[..|events| - 1], e);
      assert events == events[..|events| - 1] + [events[|events| - 1]];
    }
  }

  lemma {:induction false} QuietAppend(c: Config, a: seq<Event>, b: seq<Event>)
    ensures Quiet(c, a + b) == Quiet(c, a) + Quiet(c, b)
    decreases |b|
  {
    hide Noise;
    if b == [] {
      assert a + b == a;
    } else {
      assert (a + b)[..|a + b| - 1] == a + b[..|b| - 1];
      QuietAppend(c, a, b[..|b| - 1]);
    }
  }

  lemma {:induction false} QuietStamped(c: Config, arriving: seq<Event>, now: nat)
    ensures Quiet(c, Stamped(arriving, now)) == Stamped(Quiet(c, arriving), now)
  {
    if arriving != [] {
      var init := arriving[..|arriving| - 1];
      QuietStamped(c, init, now);
      assert Stamped(arriving, now)[..|arriving| - 1] == Stamped(init, now);
    }
  }

  lemma QuietBatch(c: Config, s: Step)
    requires s.Ingest?
    ensures Batch(QuietStep(c, s)) == Quiet(c, Batch(s))
  {
    hide Quiet;
    QuietStamped(c, s.arriving, s.now);
    QuietAppend(c, Stamped(s.arriving, s.now), s.again);
  }

  lemma {:induction false} QuietNoted(c: Config, m: Memory, batch: seq<Event>)
    ensures NoteAll(c, m, Quiet(c, batch)) == NoteAll(c, m, batch)
    decreases |batch|
  {
    if batch != [] {
      var init, e := batch[..|batch| - 1], batch[|batch| - 1];
      QuietNoted(c, m, init);
      if !Noise(c, e) {
        assert Quiet(c, batch)[..|Quiet(c, batch)| - 1] == Quiet(c, init);
      } else {
        assert Quiet(c, batch) == Quiet(c, init);
      }
    }
  }

  lemma QuietLayers(c: Config, store: seq<Event>, k: Session, after: int)
    ensures Layers(c, Quiet(c, store), k, after) == Layers(c, store, k, after)
    ensures SqlLayers(c, Quiet(c, store), k, after) == SqlLayers(c, store, k, after)
  {
    forall e ensures e in Quiet(c, store) <==> e in store && !Noise(c, e) {
      QuietHas(c, store, e);
    }
    hide Quiet;
  }

  lemma QuietCandidates(c: Config, s: Step, k: Session)
    requires s.Ingest?
    ensures k in Candidates(Batch(QuietStep(c, s))) ==> k in Candidates(Batch(s))
    ensures k !in Candidates(Batch(QuietStep(c, s))) ==> New(c, s, k) == {} && Again(c, s, k) == {}
  {
    QuietBatch(c, s);
    var batch := Batch(s);
    forall e ensures e in Quiet(c, batch) <==> e in batch && !Noise(c, e) {
      QuietHas(c, batch, e);
    }
    hide Quiet;
    if k !in Candidates(Quiet(c, batch)) {
      assert forall e :: e in batch && e.session == Some(k) ==> Noise(c, e);
      assert forall e :: e in Stamped(s.arriving, s.now) || e in s.again ==> e in batch;
    }
  }

  /** A session that only noise makes a candidate does not trip: it was below the limit before. */
  lemma NoiseTripsNothing(c: Config, w: World, s: Step, k: Session)
    requires c.Valid() && Inv(c, w) && Possible(w, s) && s.Ingest? && k !in Candidates(Batch(QuietStep(c, s)))
    ensures k !in w.mem.revoked
            ==> |Counted(c, NoteAll(c, w.mem, Batch(s)), w.store + Stamped(s.arriving, s.now), k)| < c.minLayers
    ensures k !in Active(w.rows)
            ==> |SqlLayers(c, w.store + Stamped(s.arriving, s.now), k, Floor(w.rows, k))| < c.minLayers
  {
    QuietCandidates(c, s, k);
    NotedModules(c, w.mem, Batch(s), k);
    BatchBrings(c, s, k);
    assert Watermark(w.mem, k) <= w.clock && Floor(w.rows, k) <= w.clock;
    LayersAdd(c, w.store, s, k, Watermark(w.mem, k));
    SqlLayersAdd(c, w.store, s, k, Floor(w.rows, k));
    hide Layers, SqlLayers, Brought, Candidates, Batch, Stamped, QuietStep, NoteAll, Floor, Active;
    assert |Seen(c, w, k)| < c.minLayers || k in w.mem.revoked;
    assert |Unsettled(c, w, k)| < c.minLayers || k in Active(w.rows);
    Nothing(Layers(c, w.store, k, Watermark(w.mem, k)));
    Nothing(SqlLayers(c, w.store, k, Floor(w.rows, k)));
    Nothing(ModulesOf(w.mem, k));
  }

  /** Two worlds that differ in the stored noise only. */
  ghost predicate SameButNoise(c: Config, w: World, q: World) {
    q.clock == w.clock && q.mem == w.mem && q.rows == w.rows && q.store == Quiet(c, w.store)
  }

  lemma QuietMemory(c: Config, w: World, q: World, s: Step)
    requires c.Valid() && Inv(c, w) && Possible(w, s) && s.Ingest? && SameButNoise(c, w, q)
    ensures var more := w.store + Stamped(s.arriving, s.now);
            EvaluateMemory(c, w.mem, Quiet(c, more), Batch(QuietStep(c, s))) == EvaluateMemory(c, w.mem, more, Batch(s))
  {
    var more, batch, quiet := w.store + Stamped(s.arriving, s.now), Batch(s), Batch(QuietStep(c, s));
    QuietBatch(c, s);
    QuietNoted(c, w.mem, batch);
    NotedRestores(c, w.mem, batch);
    var noted := NoteAll(c, w.mem, batch);
    hide NoteAll, Layers, Inv, Possible, Candidates, Batch, QuietStep, Quiet, Stamped;
    forall k ensures k in Tripped(c, noted, Quiet(c, more), Candidates(quiet)) <==> k in Tripped(c, noted, more, Candidates(batch)) {
      QuietLayers(c, more, k, Watermark(noted, k));
      QuietCandidates(c, s, k);
      if k !in Candidates(quiet) { NoiseTripsNothing(c, w, s, k); }
    }
    assert Tripped(c, noted, Quiet(c, more), Candidates(quiet)) == Tripped(c, noted, more, Candidates(batch));
  }

  lemma QuietSql(c: Config, w: World, q: World, s: Step)
    requires c.Valid() && Inv(c, w) && Possible(w, s) && s.Ingest? && SameButNoise(c, w, q)
    ensures var more := w.store + Stamped(s.arriving, s.now);
            EvaluateSql(c, w.rows, Quiet(c, more), Batch(QuietStep(c, s))) == EvaluateSql(c, w.rows, more, Batch(s))
  {
    var more, batch, quiet := w.store + Stamped(s.arriving, s.now), Batch(s), Batch(QuietStep(c, s));
    hide SqlLayers, Inv, Possible, Candidates, Batch, QuietStep, Quiet, Stamped;
    var tripped, tripped' := SqlTripped(c, w.rows, more, batch), SqlTripped(c, w.rows, Quiet(c, more), quiet);
    forall k ensures k in tripped' ==> k in tripped
             ensures k in tripped && k !in tripped' ==> k in w.rows && w.rows[k] == None
    {
      QuietLayers(c, more, k, Floor(w.rows, k));
      QuietCandidates(c, s, k);
      if k !in Candidates(quiet) { NoiseTripsNothing(c, w, s, k); }
    }
    hide SqlTripped;
    var a, b := EvaluateSql(c, w.rows, Quiet(c, more), quiet), EvaluateSql(c, w.rows, more, batch);
    assert a.Keys == b.Keys;
    assert forall k :: k in a ==> a[k] == b[k];
  }

  lemma QuietNext(c: Config, w: World, q: World, s: Step)
    requires c.Valid() && Inv(c, w) && Possible(w, s) && SameButNoise(c, w, q)
    ensures SameButNoise(c, Next(c, w, s), Next(c, q, QuietStep(c, s)))
  {
    hide Inv, Possible, Quiet, EvaluateMemory, EvaluateSql, Stamped, Batch;
    if s.Ingest? {
      QuietMemory(c, w, q, s);
      QuietSql(c, w, q, s);
      QuietStamped(c, s.arriving, s.now);
      QuietAppend(c, w.store, Stamped(s.arriving, s.now));
    }
  }

  lemma QuietIsPossible(c: Config, w: World, q: World, s: Step)
    requires Possible(w, s) && SameButNoise(c, w, q)
    ensures Possible(q, QuietStep(c, s))
  {
    if s.Ingest? {
      forall e ensures e in Quiet(c, s.arriving) ==> e in s.arriving
               ensures e in Quiet(c, s.again) ==> e in Quiet(c, w.store)
      {
        QuietHas(c, s.arriving, e);
        QuietHas(c, s.again, e);
        QuietHas(c, w.store, e);
      }
    }
    hide Quiet;
  }

  /** Taking every refusal of a revoked session, and every event below the breaker's severities, out of a run changes no
      revocation, and nothing else that either form of the breaker remembers. */
  lemma {:induction false} NoiseChangesNothing(c: Config, w: World, q: World, steps: seq<Step>)
    requires c.Valid() && Inv(c, w) && PossibleRun(c, w, steps) && SameButNoise(c, w, q)
    ensures PossibleRun(c, q, QuietRun(c, steps)) && SameButNoise(c, Run(c, w, steps), Run(c, q, QuietRun(c, steps)))
    ensures var end, quiet := Run(c, w, steps), Run(c, q, QuietRun(c, steps));
            quiet.mem.revoked == end.mem.revoked && Active(quiet.rows) == Active(end.rows)
    decreases |steps|
  {
    hide Next, Possible, Inv, QuietStep, Quiet, Active;
    if steps != [] {
      StepKeepsInv(c, w, steps[0]);
      QuietNext(c, w, q, steps[0]);
      QuietIsPossible(c, w, q, steps[0]);
      var rest := QuietRun(c, steps[1..]);
      assert ([QuietStep(c, steps[0])] + rest)[1..] == rest;
      NoiseChangesNothing(c, Next(c, w, steps[0]), Next(c, q, QuietStep(c, steps[0])), steps[1..]);
    }
  }
}
