/** The SQL form of the circuit breaker, the runs in which it and the in-memory form see the same traffic, and
    when the two revoke the same sessions. */
module BreakerRuns {
  import opened Wrappers
  import opened Breaker

  // ----- the SQL rule -------------------------------------------------------------------------------------------

  /** `monolith.revoked_sessions`: no restore time while a revocation is active. */
  type Rows = map<Session, Option<nat>>

  function Active(rows: Rows): set<Session> {
    set k | k in rows && rows[k].None?
  }

  /** The instant after which events count; every event was received after minus one. */
  function Floor(rows: Rows, k: Session): int {
    if k in rows && rows[k].Some? then rows[k].value else -1
  }

  /** The query does not filter on the module name. */
  predicate Selected(c: Config, e: Event) {
    e.severity in c.severities && e.eventType != "session_quarantined"
  }

  function SqlLayers(c: Config, store: seq<Event>, k: Session, after: int): set<string> {
    set e | e in store && e.session == Some(k) && Selected(c, e) && e.receivedMs > after :: e.layer
  }

  function SqlTripped(c: Config, rows: Rows, store: seq<Event>, batch: seq<Event>): set<Session> {
    set k | k in Candidates(batch) && |SqlLayers(c, store, k, Floor(rows, k))| >= c.minLayers
  }

  function EvaluateSql(c: Config, rows: Rows, store: seq<Event>, batch: seq<Event>): Rows {
    var tripped := SqlTripped(c, rows, store, batch);
    map k | k in rows.Keys + tripped :: if k in tripped then None else rows[k]
  }

  function RestoreSql(rows: Rows, k: Session, now: nat): Rows {
    if k in rows && rows[k].None? then rows[k := Some(now)] else rows
  }

  // ----- runs ---------------------------------------------------------------------------------------------------

  datatype World = World(store: seq<Event>, clock: nat, mem: Memory, rows: Rows)

  /** `again` holds redelivered events, already stored and evaluated once more with the new ones. */
  datatype Step =
    | Ingest(arriving: seq<Event>, again: seq<Event>, now: nat)
    | Restore(k: Session, now: nat)
    | Revoke(k: Session, now: nat)

  function Stamped(arriving: seq<Event>, now: nat): (r: seq<Event>)
    ensures |r| == |arriving|
    ensures forall i :: 0 <= i < |r| ==> r[i] == arriving[i].(receivedMs := now)
  {
    seq(|arriving|, i requires 0 <= i < |arriving| => arriving[i].(receivedMs := now))
  }

  function Batch(s: Step): seq<Event>
    requires s.Ingest?
  {
    Stamped(s.arriving, s.now) + s.again
  }

  const START := World([], 0, Memory(map[], map[], {}), map[])

  function Next(c: Config, w: World, s: Step): World {
    match s
    case Ingest(arriving, again, now) =>
      var store := w.store + Stamped(arriving, now);
      World(store, now, EvaluateMemory(c, w.mem, store, Batch(s)), EvaluateSql(c, w.rows, store, Batch(s)))
    case Restore(k, now) => World(w.store, now, Restored(w.mem, k, now), RestoreSql(w.rows, k, now))
    case Revoke(k, now) => World(w.store, now, Revoked(w.mem, k), w.rows[k := None])
  }

  /** What every deployment gives: the clock advances, modules are authenticated, redelivered events are stored ones. */
  ghost predicate Possible(w: World, s: Step) {
    && s.now > w.clock
    && (s.Ingest? ==>
          && (forall e :: e in s.arriving ==> e.layer in KNOWN_MODULES)
          && (forall e :: e in s.again ==> e in w.store))
  }

  ghost predicate PossibleRun(c: Config, w: World, steps: seq<Step>)
    decreases |steps|
  {
    steps == [] || (Possible(w, steps[0]) && PossibleRun(c, Next(c, w, steps[0]), steps[1..]))
  }

  function Run(c: Config, w: World, steps: seq<Step>): World
    decreases |steps|
  {
    if steps == [] then w else Run(c, Next(c, w, steps[0]), steps[1..])
  }

  // ----- what each breaker counts for a session -----------------------------------------------------------------

  /** In memory: the running set, and the stored evidence past the watermark. */
  function Seen(c: Config, w: World, k: Session): set<string> {
    Counted(c, w.mem, w.store, k)
  }

  /** In SQL: the stored evidence that no restore has settled. */
  function Unsettled(c: Config, w: World, k: Session): set<string> {
    SqlLayers(c, w.store, k, Floor(w.rows, k))
  }

  /** The two have revoked the same sessions, and count the same for every other. */
  ghost predicate Alike(c: Config, w: World) {
    w.mem.revoked == Active(w.rows) && forall k :: k !in w.mem.revoked ==> Seen(c, w, k) == Unsettled(c, w, k)
  }

  // ----- what noting a batch does -------------------------------------------------------------------------------

  /** The layers a batch adds to one session's running set. */
  function Brought(c: Config, batch: seq<Event>, k: Session): set<string> {
    set e | e in batch && e.session == Some(k) && c.Qualifies(e) :: e.layer
  }

  lemma {:induction false} NotedModules(c: Config, m: Memory, batch: seq<Event>, k: Session)
    ensures ModulesOf(NoteAll(c, m, batch), k) == ModulesOf(m, k) + Brought(c, batch, k)
    ensures NoteAll(c, m, batch).revoked == m.revoked
    ensures NoteAll(c, m, batch).restoredAt == m.restoredAt
    decreases |batch|
  {
    if batch != [] {
      var init, e := batch[..|batch| - 1], batch[|batch| - 1];
      NotedModules(c, m, init, k);
      assert batch == init + [e];
      if e.session == Some(k) && c.Qualifies(e) {
        assert Brought(c, batch, k) == Brought(c, init, k) + {e.layer};
      } else {
        assert Brought(c, batch, k) == Brought(c, init, k);
      }
    }
  }

  // ----- what possible steps keep -------------------------------------------------------------------------------

  ghost predicate WellStored(w: World) {
    && (forall e :: e in w.store ==> 0 < e.receivedMs <= w.clock && e.layer in KNOWN_MODULES)
    && (forall k :: Watermark(w.mem, k) <= w.clock && Floor(w.rows, k) <= w.clock)
    && (forall k :: ModulesOf(w.mem, k) <= KNOWN_MODULES)
  }

  /** What has not tripped a breaker is below its limit. */
  ghost predicate Below(c: Config, w: World) {
    && (forall k :: k !in w.mem.revoked ==> |Seen(c, w, k)| < c.minLayers)
    && (forall k :: k !in Active(w.rows) ==> |Unsettled(c, w, k)| < c.minLayers)
  }

  ghost predicate Inv(c: Config, w: World) {
    WellStored(w) && Below(c, w)
  }

  /** The layers of the new events, and those of the redelivered ones. */
  function New(c: Config, s: Step, k: Session): set<string>
    requires s.Ingest?
  {
    Brought(c, Stamped(s.arriving, s.now), k)
  }

  function Again(c: Config, s: Step, k: Session): set<string>
    requires s.Ingest?
  {
    Brought(c, s.again, k)
  }

  lemma BatchBrings(c: Config, s: Step, k: Session)
    requires s.Ingest?
    ensures Brought(c, Batch(s), k) == New(c, s, k) + Again(c, s, k)
    ensures k !in Candidates(Batch(s)) ==> New(c, s, k) == {} && Again(c, s, k) == {}
  {
    var latest := Stamped(s.arriving, s.now);
    assert forall e :: e in Batch(s) <==> e in latest || e in s.again;
    if k !in Candidates(Batch(s)) {
      assert forall e :: e in Batch(s) ==> e.session != Some(k);
    }
  }

  lemma LayersAdd(c: Config, store: seq<Event>, s: Step, k: Session, after: int)
    requires s.Ingest? && s.now > after
    ensures Layers(c, store + Stamped(s.arriving, s.now), k, after) == Layers(c, store, k, after) + New(c, s, k)
  {
    var latest := Stamped(s.arriving, s.now);
    assert forall e :: e in store + latest <==> e in store || e in latest;
    assert forall e :: e in latest ==> e.receivedMs == s.now;
  }

  lemma SqlLayersAdd(c: Config, store: seq<Event>, s: Step, k: Session, after: int)
    requires s.Ingest? && s.now > after && forall e :: e in s.arriving ==> e.layer in KNOWN_MODULES
    ensures SqlLayers(c, store + Stamped(s.arriving, s.now), k, after) == SqlLayers(c, store, k, after) + New(c, s, k)
  {
    var latest := Stamped(s.arriving, s.now);
    StampedKnown(s);
    assert forall e :: e in store + latest <==> e in store || e in latest;
    assert forall e :: e in latest ==> e.receivedMs == s.now && e.layer in KNOWN_MODULES;
  }

  lemma StampedKnown(s: Step)
    requires s.Ingest? && forall e :: e in s.arriving ==> e.layer in KNOWN_MODULES
    ensures forall e :: e in Stamped(s.arriving, s.now) ==> e.receivedMs == s.now && e.layer in KNOWN_MODULES
  {
    forall e | e in Stamped(s.arriving, s.now) ensures e.receivedMs == s.now && e.layer in KNOWN_MODULES {
      var i :| 0 <= i < |s.arriving| && e == Stamped(s.arriving, s.now)[i];
      assert s.arriving[i] in s.arriving;
    }
  }

  lemma NotedRestores(c: Config, m: Memory, batch: seq<Event>)
    ensures NoteAll(c, m, batch).revoked == m.revoked && NoteAll(c, m, batch).restoredAt == m.restoredAt
  {
    NotedModules(c, m, batch, Session("", "", ""));
  }

  /** One ingest in memory, for one session. */
  lemma IngestInMemory(c: Config, w: World, s: Step, k: Session)
    requires WellStored(w) && Possible(w, s) && s.Ingest?
    ensures var n, counted := Next(c, w, s), Seen(c, w, k) + New(c, s, k) + Again(c, s, k);
            && (k in n.mem.revoked <==> k in w.mem.revoked || (k in Candidates(Batch(s)) && |counted| >= c.minLayers))
            && (k !in n.mem.revoked ==> Seen(c, n, k) == counted)
            && Watermark(n.mem, k) <= Watermark(w.mem, k)
            && ModulesOf(n.mem, k) == ModulesOf(w.mem, k) + New(c, s, k) + Again(c, s, k)
  {
    hide NoteAll, Layers, Brought, Candidates, Batch, Stamped, EvaluateSql, ModulesOf;
    NotedRestores(c, w.mem, Batch(s));
    NotedModules(c, w.mem, Batch(s), k);
    BatchBrings(c, s, k);
    LayersAdd(c, w.store, s, k, Watermark(w.mem, k));
    MemoryModules(c, w, s, k);
    var modules, layers, latest, again := ModulesOf(w.mem, k), Layers(c, w.store, k, Watermark(w.mem, k)), New(c, s, k), Again(c, s, k);
    assert modules + (latest + again) + (layers + latest) == modules + layers + latest + again;
    assert modules + (latest + again) == modules + latest + again;
  }

  lemma MemoryModules(c: Config, w: World, s: Step, k: Session)
    requires s.Ingest?
    ensures ModulesOf(Next(c, w, s).mem, k) == ModulesOf(NoteAll(c, w.mem, Batch(s)), k)
  {
    hide NoteAll, Tripped, EvaluateSql, Batch, Stamped;
  }

  /** The same ingest in SQL. */
  lemma IngestInSql(c: Config, w: World, s: Step, k: Session)
    requires WellStored(w) && Possible(w, s) && s.Ingest?
    ensures var n, counted := Next(c, w, s), Unsettled(c, w, k) + New(c, s, k);
            && (k in Active(n.rows) <==> k in Active(w.rows) || (k in Candidates(Batch(s)) && |counted| >= c.minLayers))
            && (k !in Active(n.rows) ==> Floor(n.rows, k) == Floor(w.rows, k) && Unsettled(c, n, k) == counted)
            && Floor(n.rows, k) <= Floor(w.rows, k)
  {
    hide EvaluateMemory, SqlLayers, Brought, Candidates, Batch, Stamped;
    SqlLayersAdd(c, w.store, s, k, Floor(w.rows, k));
  }

  lemma IngestKeepsInv(c: Config, w: World, s: Step)
    requires c.Valid() && Inv(c, w) && Possible(w, s) && s.Ingest?
    ensures Inv(c, Next(c, w, s))
  {
    hide EvaluateMemory, EvaluateSql, Seen, Unsettled, Stamped, Watermark, Floor, New, Again, Candidates, Batch, ModulesOf, Active;
    var n := Next(c, w, s);
    StampedKnown(s);
    forall e | e in n.store ensures 0 < e.receivedMs <= n.clock && e.layer in KNOWN_MODULES {
    }
    forall k
      ensures k !in n.mem.revoked ==> |Seen(c, n, k)| < c.minLayers
      ensures k !in Active(n.rows) ==> |Unsettled(c, n, k)| < c.minLayers
      ensures Watermark(n.mem, k) <= n.clock && Floor(n.rows, k) <= n.clock && ModulesOf(n.mem, k) <= KNOWN_MODULES
    {
      IngestInMemory(c, w, s, k);
      IngestInSql(c, w, s, k);
      BatchBrings(c, s, k);
      BroughtKnown(c, s, k);
      Nothing(Seen(c, w, k));
      Nothing(Unsettled(c, w, k));
      assert Watermark(w.mem, k) <= w.clock && Floor(w.rows, k) <= w.clock && ModulesOf(w.mem, k) <= KNOWN_MODULES;
    }
  }

  lemma Nothing(a: set<string>)
    ensures a + {} == a && a + {} + {} == a
  {
  }

  lemma BroughtKnown(c: Config, s: Step, k: Session)
    requires s.Ingest?
    ensures New(c, s, k) <= KNOWN_MODULES && Again(c, s, k) <= KNOWN_MODULES
  {
  }

  lemma RestoreKeepsInv(c: Config, w: World, s: Step)
    requires c.Valid() && Inv(c, w) && Possible(w, s) && s.Restore?
    ensures Inv(c, Next(c, w, s))
    ensures Seen(c, Next(c, w, s), s.k) == {}
    ensures Unsettled(c, Next(c, w, s), s.k) == if s.k in Active(w.rows) then {} else Unsettled(c, w, s.k)
    ensures forall k :: k != s.k ==> Seen(c, Next(c, w, s), k) == Seen(c, w, k) && Unsettled(c, Next(c, w, s), k) == Unsettled(c, w, k)
  {
    OperatorsStore(c, w, s);
    RestoreInMemory(c, w, s);
    RestoreInSql(c, w, s);
    hide Layers, SqlLayers, Seen, Unsettled, WellStored;
    var n := Next(c, w, s);
    forall k
      ensures k !in n.mem.revoked ==> |Seen(c, n, k)| < c.minLayers
      ensures k !in Active(n.rows) ==> |Unsettled(c, n, k)| < c.minLayers
    {
      assert k != s.k ==> (k in n.mem.revoked <==> k in w.mem.revoked) && (k in Active(n.rows) <==> k in Active(w.rows));
    }
  }

  lemma OperatorsStore(c: Config, w: World, s: Step)
    requires WellStored(w) && Possible(w, s) && !s.Ingest?
    ensures WellStored(Next(c, w, s))
  {
    var n := Next(c, w, s);
    forall k ensures Watermark(n.mem, k) <= n.clock && Floor(n.rows, k) <= n.clock && ModulesOf(n.mem, k) <= KNOWN_MODULES {
      assert Watermark(w.mem, k) <= w.clock && Floor(w.rows, k) <= w.clock && ModulesOf(w.mem, k) <= KNOWN_MODULES;
    }
  }

  lemma RestoreInMemory(c: Config, w: World, s: Step)
    requires WellStored(w) && Possible(w, s) && s.Restore?
    ensures Seen(c, Next(c, w, s), s.k) == {}
    ensures forall k :: k != s.k ==> Seen(c, Next(c, w, s), k) == Seen(c, w, k)
  {
    assert Layers(c, w.store, s.k, s.now) == {};
  }

  lemma RestoreInSql(c: Config, w: World, s: Step)
    requires WellStored(w) && Possible(w, s) && s.Restore?
    ensures Unsettled(c, Next(c, w, s), s.k) == if s.k in Active(w.rows) then {} else Unsettled(c, w, s.k)
    ensures forall k :: k != s.k ==> Unsettled(c, Next(c, w, s), k) == Unsettled(c, w, k)
  {
    assert SqlLayers(c, w.store, s.k, s.now) == {};
  }

  lemma RevokeElsewhere(c: Config, w: World, s: Step)
    requires s.Revoke?
    ensures forall k :: k != s.k ==> Seen(c, Next(c, w, s), k) == Seen(c, w, k) && Unsettled(c, Next(c, w, s), k) == Unsettled(c, w, k)
  {
    hide Layers, SqlLayers;
  }

  lemma RevokeAdds(c: Config, w: World, s: Step)
    requires s.Revoke?
    ensures Next(c, w, s).mem.revoked == w.mem.revoked + {s.k} && Active(Next(c, w, s).rows) == Active(w.rows) + {s.k}
  {
  }

  lemma RevokeKeepsInv(c: Config, w: World, s: Step)
    requires c.Valid() && Inv(c, w) && Possible(w, s) && s.Revoke?
    ensures Inv(c, Next(c, w, s))
    ensures Alike(c, w) ==> Alike(c, Next(c, w, s))
  {
    OperatorsStore(c, w, s);
    RevokeElsewhere(c, w, s);
    RevokeAdds(c, w, s);
    hide Seen, Unsettled, WellStored, Next, Active;
  }

  lemma StepKeepsInv(c: Config, w: World, s: Step)
    requires c.Valid() && Inv(c, w) && Possible(w, s)
    ensures Inv(c, Next(c, w, s))
  {
    hide Inv, Next, Possible;
    match s
    case Ingest(_, _, _) => IngestKeepsInv(c, w, s);
    case Restore(_, _) => RestoreKeepsInv(c, w, s);
    case Revoke(_, _) => RevokeKeepsInv(c, w, s);
  }

  lemma StartIsAlike(c: Config)
    requires c.Valid()
    ensures Inv(c, START) && Alike(c, START)
  {
    assert forall k :: Seen(c, START, k) == {} && Unsettled(c, START, k) == {};
  }

  // ----- when the two stay alike --------------------------------------------------------------------------------

  lemma GrowsWith(a: set<string>, b: set<string>)
    ensures |a + b| >= |a|
    ensures b <= a ==> a + b == a
  {
    assert a + b == a + (b - a);
  }

  /** An ingest keeps the two alike exactly when redelivered events bring no layer to a session beyond what its
      unsettled evidence shows, unless that evidence trips the breaker by itself. */
  lemma IngestKeepsAlike(c: Config, w: World, s: Step)
    requires c.Valid() && Inv(c, w) && Alike(c, w) && Possible(w, s) && s.Ingest?
    ensures Alike(c, Next(c, w, s))
            <==> forall k :: k !in w.mem.revoked && |Unsettled(c, w, k) + New(c, s, k)| < c.minLayers
                   ==> Again(c, s, k) <= Unsettled(c, w, k) + New(c, s, k)
  {
    hide Seen, Unsettled, New, Again, Next, Candidates, Batch, Possible, WellStored, Active;
    var n := Next(c, w, s);
    forall k
      ensures (k in n.mem.revoked <==> k in Active(n.rows)) && (k !in n.mem.revoked ==> Seen(c, n, k) == Unsettled(c, n, k))
              <==> (k !in w.mem.revoked && |Unsettled(c, w, k) + New(c, s, k)| < c.minLayers
                    ==> Again(c, s, k) <= Unsettled(c, w, k) + New(c, s, k))
    {
      IngestInMemory(c, w, s, k);
      IngestInSql(c, w, s, k);
      BatchBrings(c, s, k);
      Nothing(Unsettled(c, w, k));
      GrowsWith(Unsettled(c, w, k) + New(c, s, k), Again(c, s, k));
    }
  }

  /** A restore does exactly when the session was revoked, or has no unsettled evidence. */
  lemma RestoreKeepsAlike(c: Config, w: World, s: Step)
    requires c.Valid() && Inv(c, w) && Alike(c, w) && Possible(w, s) && s.Restore?
    ensures Alike(c, Next(c, w, s)) <==> s.k in w.mem.revoked || Unsettled(c, w, s.k) == {}
  {
    RestoreKeepsInv(c, w, s);
    hide Seen, Unsettled, WellStored;
  }

  /** The condition on each step, for both kinds. */
  ghost predicate Harmless(c: Config, w: World, s: Step) {
    match s
    case Ingest(_, _, _) =>
      forall k :: k !in w.mem.revoked && |Unsettled(c, w, k) + New(c, s, k)| < c.minLayers
        ==> Again(c, s, k) <= Unsettled(c, w, k) + New(c, s, k)
    case Restore(k, _) => k in w.mem.revoked || Unsettled(c, w, k) == {}
    case Revoke(_, _) => true
  }

  ghost predicate HarmlessRun(c: Config, w: World, steps: seq<Step>)
    decreases |steps|
  {
    steps == [] || (Harmless(c, w, steps[0]) && HarmlessRun(c, Next(c, w, steps[0]), steps[1..]))
  }

  lemma StepKeepsAlike(c: Config, w: World, s: Step)
    requires c.Valid() && Inv(c, w) && Alike(c, w) && Possible(w, s)
    ensures Alike(c, Next(c, w, s)) <==> Harmless(c, w, s)
  {
    hide Inv, Next, Possible, Alike, Unsettled, New, Again;
    match s
    case Ingest(_, _, _) => IngestKeepsAlike(c, w, s);
    case Restore(_, _) => RestoreKeepsAlike(c, w, s);
    case Revoke(_, _) => RevokeKeepsInv(c, w, s);
  }

  /** Over whole runs of harmless steps the memory breaker has revoked exactly the sessions the SQL rule has. */
  lemma {:induction false} RunsAgree(c: Config, w: World, steps: seq<Step>)
    requires c.Valid() && Inv(c, w) && Alike(c, w) && PossibleRun(c, w, steps) && HarmlessRun(c, w, steps)
    ensures Inv(c, Run(c, w, steps)) && Alike(c, Run(c, w, steps))
    ensures Run(c, w, steps).mem.revoked == Active(Run(c, w, steps).rows)
    decreases |steps|
  {
    hide Next, Possible, Harmless, Inv;
    if steps != [] {
      StepKeepsInv(c, w, steps[0]);
      StepKeepsAlike(c, w, steps[0]);
      RunsAgree(c, Next(c, w, steps[0]), steps[1..]);
    }
  }

  // ----- being alike is what deciding alike takes ---------------------------------------------------------------

  lemma {:induction false} Between(low: set<string>, high: set<string>, n: nat) returns (mid: set<string>)
    requires low <= high && |low| <= n <= |high|
    ensures low <= mid <= high && |mid| == n
    decreases n - |low|
  {
    mid := low;
    if |low| < n {
      assert high == (high - low) + low;
      var x :| x in high - low;
      mid := Between(low + {x}, high, n);
    }
  }

  /** One critical event from each of some layers. */
  lemma {:induction false} Reports(k: Session, layers: set<string>) returns (events: seq<Event>)
    ensures forall e :: e in events ==> e == Event(Some(k), e.layer, "", Critical, 0) && e.layer in layers
    ensures forall layer :: layer in layers ==> Event(Some(k), layer, "", Critical, 0) in events
    decreases layers
  {
    events := [];
    if layers != {} {
      var layer :| layer in layers;
      var rest := Reports(k, layers - {layer});
      events := [Event(Some(k), layer, "", Critical, 0)] + rest;
    }
  }

  lemma ReportsBring(c: Config, k: Session, layers: set<string>, now: nat) returns (s: Step)
    requires c.Valid() && layers <= KNOWN_MODULES
    ensures s.Ingest? && s.now == now && s.again == [] && forall e :: e in s.arriving ==> e.layer in KNOWN_MODULES
    ensures New(c, s, k) == layers && Again(c, s, k) == {}
  {
    var events := Reports(k, layers);
    s := Ingest(events, [], now);
    var stamped := Stamped(events, now);
    forall layer ensures layer in New(c, s, k) <==> layer in layers {
      if layer in layers {
        var e := Event(Some(k), layer, "", Critical, 0);
        var i :| 0 <= i < |events| && events[i] == e;
        assert stamped[i] == e.(receivedMs := now) && stamped[i] in stamped;
      }
      if layer in New(c, s, k) {
        var e :| e in stamped && e.session == Some(k) && e.layer == layer;
        var i :| 0 <= i < |stamped| && stamped[i] == e;
        assert events[i] in events && events[i].layer == layer;
      }
    }
  }

  lemma ThreeModules()
    ensures |KNOWN_MODULES| == 3
  {
    assert KNOWN_MODULES == {"mcp-shield"} + {"vector-anchor"} + {"trace-audit"};
    assert "mcp-shield"[0] != "vector-anchor"[0] && "vector-anchor"[0] != "trace-audit"[0];
    assert "mcp-shield"[0] != "trace-audit"[0];
  }

  /** Layers that leave one count just below the limit and take the other, which has a layer more, to it. */
  lemma Tipping(c: Config, less: set<string>, d: string) returns (layers: set<string>)
    requires c.Valid() && less <= KNOWN_MODULES && |less| < c.minLayers && d in KNOWN_MODULES && d !in less
    ensures layers <= KNOWN_MODULES && less + layers == layers && d !in layers && |layers| == c.minLayers - 1
  {
    ThreeModules();
    assert |KNOWN_MODULES - {d}| == 2;
    layers := Between(less, KNOWN_MODULES - {d}, c.minLayers - 1);
  }

  lemma Tips(c: Config, more: set<string>, layers: set<string>, d: string)
    requires d in more && d !in layers && |layers| == c.minLayers - 1
    ensures |more + layers| >= c.minLayers
  {
    assert more + layers == (layers + {d}) + more;
    GrowsWith(layers + {d}, more);
  }

  /** Where the two have revoked the same and yet are not alike, new events alone can part them: one ingest after
      which one has revoked a session and the other has not. So they decide alike, whatever new events come, exactly
      while they are alike. */
  lemma UnalikeAreParted(c: Config, w: World) returns (s: Step)
    requires c.Valid() && Inv(c, w) && w.mem.revoked == Active(w.rows) && !Alike(c, w)
    ensures Possible(w, s) && s.Ingest? && s.again == []
    ensures Next(c, w, s).mem.revoked != Active(Next(c, w, s).rows)
  {
    hide Seen, Unsettled, New, Again, Next, Possible;
    var k :| k !in w.mem.revoked && Seen(c, w, k) != Unsettled(c, w, k);
    CountsKnown(c, w, k);
    var seen, unsettled := Seen(c, w, k), Unsettled(c, w, k);
    var layers;
    if d :| d in unsettled && d !in seen {
      layers := Tipping(c, seen, d);
      Tips(c, unsettled, layers, d);
    } else {
      var d :| d in seen && d !in unsettled;
      layers := Tipping(c, unsettled, d);
      Tips(c, seen, layers, d);
    }
    s := ReportsBring(c, k, layers, w.clock + 1);
    ReportsPossible(w, s);
    IngestInMemory(c, w, s, k);
    IngestInSql(c, w, s, k);
    BatchBrings(c, s, k);
    Nothing(seen);
    Nothing(unsettled);
    Nothing(seen + layers);
  }

  lemma ReportsPossible(w: World, s: Step)
    requires s.Ingest? && s.now > w.clock && s.again == [] && forall e :: e in s.arriving ==> e.layer in KNOWN_MODULES
    ensures Possible(w, s)
  {
  }

  lemma CountsKnown(c: Config, w: World, k: Session)
    requires WellStored(w)
    ensures Seen(c, w, k) <= KNOWN_MODULES && Unsettled(c, w, k) <= KNOWN_MODULES
  {
  }

  // ----- what a run decides for one session ---------------------------------------------------------------------

  ghost predicate Revokes(steps: seq<Step>, k: Session) {
    exists i :: 0 <= i < |steps| && steps[i].Revoke? && steps[i].k == k
  }

  ghost predicate Restores(steps: seq<Step>, k: Session) {
    exists i :: 0 <= i < |steps| && steps[i].Restore? && steps[i].k == k
  }

  /** The evidence received after `t`, and the operator, settle whether the session is revoked. */
  ghost predicate Judged(c: Config, w: World, k: Session, t: int, manual: bool) {
    && t <= w.clock
    && (k in Active(w.rows) <==> manual || |SqlLayers(c, w.store, k, t)| >= c.minLayers)
    && (k !in Active(w.rows) ==> Floor(w.rows, k) == t)
  }

  lemma IngestJudges(c: Config, w: World, s: Step, k: Session, t: int, manual: bool)
    requires c.Valid() && Inv(c, w) && Possible(w, s) && s.Ingest? && Judged(c, w, k, t, manual)
    ensures Judged(c, Next(c, w, s), k, t, manual)
  {
    hide EvaluateMemory, EvaluateSql, SqlLayers, Candidates, Batch, Stamped, New, Again, Active, Floor, Seen;
    IngestInSql(c, w, s, k);
    BatchBrings(c, s, k);
    SqlLayersAdd(c, w.store, s, k, t);
    GrowsWith(SqlLayers(c, w.store, k, t), New(c, s, k));
    Nothing(SqlLayers(c, w.store, k, t));
  }

  lemma StepJudges(c: Config, w: World, s: Step, k: Session, t: int, manual: bool)
    requires c.Valid() && Inv(c, w) && Possible(w, s) && Judged(c, w, k, t, manual)
    requires !(s.Restore? && s.k == k)
    ensures Judged(c, Next(c, w, s), k, t, manual || (s.Revoke? && s.k == k))
  {
    hide SqlLayers;
    if s.Ingest? {
      IngestJudges(c, w, s, k, t, manual);
    }
  }

  lemma {:induction false} RunJudges(c: Config, w: World, steps: seq<Step>, k: Session, t: int, manual: bool)
    requires c.Valid() && Inv(c, w) && PossibleRun(c, w, steps)
    requires Judged(c, w, k, t, manual) && !Restores(steps, k)
    ensures Judged(c, Run(c, w, steps), k, t, manual || Revokes(steps, k))
    decreases |steps|
  {
    hide Possible, Inv, SqlLayers, Next, Judged;
    if steps != [] {
      var s, rest := steps[0], steps[1..];
      StepKeepsInv(c, w, s);
      StepJudges(c, w, s, k, t, manual);
      assert forall i :: 0 <= i < |rest| ==> rest[i] == steps[i + 1];
      assert Revokes(steps, k) <==> (s.Revoke? && s.k == k) || Revokes(rest, k) by {
        if Revokes(rest, k) {
          var i :| 0 <= i < |rest| && rest[i].Revoke? && rest[i].k == k;
          assert steps[i + 1] == rest[i];
        }
      }
      RunJudges(c, Next(c, w, s), rest, k, t, manual || (s.Revoke? && s.k == k));
    }
  }

  lemma RunUnfolds(c: Config, w: World, s: Step, steps: seq<Step>)
    ensures PossibleRun(c, w, [s] + steps) <==> Possible(w, s) && PossibleRun(c, Next(c, w, s), steps)
    ensures HarmlessRun(c, w, [s] + steps) <==> Harmless(c, w, s) && HarmlessRun(c, Next(c, w, s), steps)
    ensures Run(c, w, [s] + steps) == Run(c, Next(c, w, s), steps)
  {
    hide Possible, Harmless, Next;
    assert ([s] + steps)[1..] == steps;
  }

  /** From the restore of a revoked session until its next restore, SQL revokes it again exactly when an operator
      does or evidence received after that restore, refusals excepted, comes from enough layers; and so does the
      memory breaker in every harmless run. */
  lemma OnlyLaterEvidenceTripsAgain(c: Config, w: World, restore: Step, steps: seq<Step>)
    requires c.Valid() && Inv(c, w) && restore.Restore? && restore.k in Active(w.rows)
    requires PossibleRun(c, w, [restore] + steps) && !Restores(steps, restore.k)
    ensures var end := Run(c, w, [restore] + steps);
            && (restore.k in Active(end.rows)
                <==> Revokes(steps, restore.k)
                     || |set e | e in end.store && e.session == Some(restore.k) && e.severity in c.severities
                                 && e.eventType != "session_quarantined" && e.receivedMs > restore.now :: e.layer| >= c.minLayers)
            && (Alike(c, w) && HarmlessRun(c, w, [restore] + steps) ==> end.mem.revoked == Active(end.rows))
  {
    hide PossibleRun, HarmlessRun, Run, Revokes, Restores, Alike, Inv;
    RunUnfolds(c, w, restore, steps);
    StepKeepsInv(c, w, restore);
    RestoredIsJudged(c, w, restore);
    RunJudges(c, Next(c, w, restore), steps, restore.k, restore.now, false);
    EvidenceIs(c, Run(c, w, [restore] + steps).store, restore.k, restore.now);
    if Alike(c, w) && HarmlessRun(c, w, [restore] + steps) {
      RunsAgree(c, w, [restore] + steps);
    }
  }

  lemma EvidenceIs(c: Config, store: seq<Event>, k: Session, after: int)
    ensures SqlLayers(c, store, k, after)
            == set e | e in store && e.session == Some(k) && e.severity in c.severities
                       && e.eventType != "session_quarantined" && e.receivedMs > after :: e.layer
  {
  }

  lemma AllEvidenceIs(c: Config, store: seq<Event>, k: Session)
    ensures SqlLayers(c, store, k, -1)
            == set e | e in store && e.session == Some(k) && e.severity in c.severities
                       && e.eventType != "session_quarantined" :: e.layer
  {
    assert forall e: Event :: e.receivedMs > -1;
  }

  lemma RestoredIsJudged(c: Config, w: World, s: Step)
    requires c.Valid() && Inv(c, w) && Possible(w, s) && s.Restore? && s.k in Active(w.rows)
    ensures Judged(c, Next(c, w, s), s.k, s.now, false)
  {
    RestoreInSql(c, w, s);
  }

  // ----- without restores ---------------------------------------------------------------------------------------

  ghost predicate NoRestores(steps: seq<Step>) {
    forall i :: 0 <= i < |steps| ==> !steps[i].Restore?
  }

  ghost predicate NoFloors(w: World) {
    forall k :: Floor(w.rows, k) == -1
  }

  lemma NoFloorThen(c: Config, w: World, s: Step)
    requires NoFloors(w) && !s.Restore?
    ensures NoFloors(Next(c, w, s))
  {
    hide SqlTripped, EvaluateMemory;
    var n := Next(c, w, s);
    forall k ensures Floor(n.rows, k) == -1 {
      assert Floor(w.rows, k) == -1;
    }
  }

  /** Redelivery does no harm while nothing was ever restored: what was stored is unsettled. */
  lemma UnrestoredIsHarmless(c: Config, w: World, s: Step)
    requires WellStored(w) && NoFloors(w) && Possible(w, s) && !s.Restore?
    ensures Harmless(c, w, s)
  {
    if s.Ingest? {
      forall k ensures Again(c, s, k) <= Unsettled(c, w, k) {
        assert Floor(w.rows, k) == -1;
        assert forall e :: e in s.again ==> e in w.store && e.receivedMs > -1;
      }
    }
  }

  lemma {:induction false} UnrestoredRunsAreHarmless(c: Config, w: World, steps: seq<Step>)
    requires c.Valid() && Inv(c, w) && NoFloors(w) && NoRestores(steps) && PossibleRun(c, w, steps)
    ensures HarmlessRun(c, w, steps)
    decreases |steps|
  {
    hide Next, Harmless, NoFloors, Possible, WellStored, Below;
    if steps != [] {
      UnrestoredIsHarmless(c, w, steps[0]);
      NoFloorThen(c, w, steps[0]);
      StepKeepsInv(c, w, steps[0]);
      UnrestoredRunsAreHarmless(c, Next(c, w, steps[0]), steps[1..]);
    }
  }

  lemma NothingStored(c: Config, k: Session)
    ensures SqlLayers(c, START.store, k, -1) == {} && NoFloors(START)
  {
  }

  /** Without restores the revoked sessions, in memory and in SQL, are those the operators named and those with
      enough layers. */
  lemma RevokedWithoutRestores(c: Config, steps: seq<Step>, k: Session)
    requires c.Valid() && PossibleRun(c, START, steps) && NoRestores(steps)
    ensures var end := Run(c, START, steps);
            && end.mem.revoked == Active(end.rows)
            && (k in end.mem.revoked
                <==> Revokes(steps, k)
                     || |set e | e in end.store && e.session == Some(k) && e.severity in c.severities
                                 && e.eventType != "session_quarantined" :: e.layer| >= c.minLayers)
  {
    hide PossibleRun, HarmlessRun, Run, Revokes, Inv, Alike;
    StartIsAlike(c);
    NothingStored(c, k);
    UnrestoredRunsAreHarmless(c, START, steps);
    RunsAgree(c, START, steps);
    RunJudges(c, START, steps, k, -1, false);
    AllEvidenceIs(c, Run(c, START, steps).store, k);
  }

  /** Whether two runs stored the same kinds of evidence, whenever and in whatever batches it came. */
  ghost predicate SameEvidence(c: Config, a: seq<Event>, b: seq<Event>) {
    forall e: Event :: e.receivedMs == 0 && Selected(c, e) ==> (Shows(a, e) <==> Shows(b, e))
  }

  ghost predicate Shows(store: seq<Event>, e: Event) {
    exists f :: f in store && f.(receivedMs := 0) == e
  }

  lemma SameEvidenceSameLayers(c: Config, a: seq<Event>, b: seq<Event>, k: Session)
    requires SameEvidence(c, a, b)
    ensures SqlLayers(c, a, k, -1) <= SqlLayers(c, b, k, -1)
  {
    forall layer | layer in SqlLayers(c, a, k, -1) ensures layer in SqlLayers(c, b, k, -1) {
      var e :| e in a && e.session == Some(k) && Selected(c, e) && e.layer == layer;
      assert Shows(a, e.(receivedMs := 0));
      var f :| f in b && f.(receivedMs := 0) == e.(receivedMs := 0);
      assert f.session == Some(k) && Selected(c, f);
    }
  }

  /** Neither the order of the events nor their division into batches changes what is revoked. */
  lemma OrderAndBatchingDoNotMatter(c: Config, one: seq<Step>, other: seq<Step>)
    requires c.Valid() && NoRestores(one) && NoRestores(other)
    requires PossibleRun(c, START, one) && PossibleRun(c, START, other)
    requires forall k :: Revokes(one, k) <==> Revokes(other, k)
    requires SameEvidence(c, Run(c, START, one).store, Run(c, START, other).store)
    ensures Run(c, START, one).mem.revoked == Run(c, START, other).mem.revoked
  {
    hide PossibleRun, NoRestores, Run, Revokes, SqlLayers, SameEvidence;
    var a, b := Run(c, START, one).store, Run(c, START, other).store;
    SameEvidenceFlips(c, a, b);
    forall k ensures k in Run(c, START, one).mem.revoked <==> k in Run(c, START, other).mem.revoked {
      RevokedWithoutRestores(c, one, k);
      RevokedWithoutRestores(c, other, k);
      SameEvidenceSameLayers(c, a, b, k);
      SameEvidenceSameLayers(c, b, a, k);
      AllEvidenceIs(c, a, k);
      AllEvidenceIs(c, b, k);
      assert SqlLayers(c, a, k, -1) == SqlLayers(c, b, k, -1);
    }
  }

  lemma SameEvidenceFlips(c: Config, a: seq<Event>, b: seq<Event>)
    requires SameEvidence(c, a, b)
    ensures SameEvidence(c, b, a)
  {
  }

  // ----- where the two part -------------------------------------------------------------------------------------

  lemma RunOfTwo(c: Config, w: World, s: Step, t: Step)
    requires Possible(w, s) && Possible(Next(c, w, s), t)
    ensures PossibleRun(c, w, [s, t]) && Run(c, w, [s, t]) == Next(c, Next(c, w, s), t)
  {
    hide Possible, Next;
    assert [s, t][1..] == [t] && [t][1..] == [];
    assert PossibleRun(c, Next(c, w, s), [t]);
    assert Run(c, Next(c, w, s), [t]) == Next(c, Next(c, w, s), t);
  }

  /** At the default of two layers: a restore nobody needed hides an alarm from memory alone, and the next alarm of
      another layer revokes the session in SQL and not in memory. */
  lemma NeedlessRestorePartsThem(c: Config, w: World, k: Session, layer: string, restore: Step) returns (alarm: Step)
    requires c.Valid() && c.minLayers == 2 && Inv(c, w) && Alike(c, w) && k !in w.mem.revoked
    requires restore == Restore(k, w.clock + 1) && layer in KNOWN_MODULES && Unsettled(c, w, k) != {}
    requires layer !in Unsettled(c, w, k)
    ensures PossibleRun(c, w, [restore, alarm])
    ensures var end := Run(c, w, [restore, alarm]);
            k in Active(end.rows) && k !in end.mem.revoked
  {
    hide Seen, Unsettled, New, Again, Next, Alike;
    var w1 := Next(c, w, restore);
    var was := Unsettled(c, w, k);
    RestoreIsNeedless(c, w, restore);
    RestoreKeepsInv(c, w, restore);
    alarm := ReportsBring(c, k, {layer}, w.clock + 2);
    ReportsPossible(w1, alarm);
    hide Possible;
    RunOfTwo(c, w, restore, alarm);
    IngestInMemory(c, w1, alarm, k);
    IngestInSql(c, w1, alarm, k);
    BatchBrings(c, alarm, k);
    assert {} + {layer} + {} == {layer};
    var d :| d in was;
    Tips(c, was, {layer}, d);
    Nothing({layer});
  }

  lemma RestoreIsNeedless(c: Config, w: World, s: Step)
    requires Alike(c, w) && s.Restore? && s.k !in w.mem.revoked && s.now == w.clock + 1
    ensures Possible(w, s)
    ensures var n := Next(c, w, s);
            && s.k !in Active(w.rows)
            && n.clock == w.clock + 1 && s.k !in n.mem.revoked && s.k !in Active(n.rows) && n.store == w.store
  {
    hide Seen, Unsettled;
  }

  /** At the default of two layers: redelivering one alarm that a restore settled changes nothing that can be seen,
      and the next alarm of another layer revokes the session in memory and not in SQL. */
  lemma RedeliveryPartsThem(c: Config, w: World, k: Session, settled: Event, layer: string) returns (again: Step, alarm: Step)
    requires c.Valid() && c.minLayers == 2 && Inv(c, w) && Alike(c, w) && k !in w.mem.revoked
    requires settled in w.store && settled.session == Some(k) && c.Qualifies(settled) && Unsettled(c, w, k) == {}
    requires layer in KNOWN_MODULES && layer != settled.layer
    ensures again == Ingest([], [settled], w.clock + 1) && PossibleRun(c, w, [again, alarm])
    ensures Next(c, w, again).mem.revoked == Active(Next(c, w, again).rows) == w.mem.revoked
    ensures var end := Run(c, w, [again, alarm]);
            k in end.mem.revoked && k !in Active(end.rows)
  {
    hide Seen, Unsettled, New, Again, Next, Alike, Candidates, Batch;
    again := Ingest([], [settled], w.clock + 1);
    var w1 := Next(c, w, again);
    AgainOne(c, w, again, settled, k);
    alarm := ReportsBring(c, k, {layer}, w.clock + 2);
    RedeliveryChangesNothing(c, w, again, settled, k);
    StepKeepsInv(c, w, again);
    ReportsPossible(w1, alarm);
    hide Possible;
    RunOfTwo(c, w, again, alarm);
    IngestInMemory(c, w1, alarm, k);
    IngestInSql(c, w1, alarm, k);
    BatchBrings(c, alarm, k);
    assert {settled.layer} + {layer} + {} == {settled.layer, layer};
    assert {} + {layer} == {layer};
  }

  lemma AgainOne(c: Config, w: World, s: Step, e: Event, k: Session)
    requires s == Ingest([], [e], w.clock + 1) && e in w.store && e.session == Some(k) && c.Qualifies(e)
    ensures Possible(w, s) && Again(c, s, k) == {e.layer} && New(c, s, k) == {}
    ensures forall j :: New(c, s, j) == {} && (j != k ==> Again(c, s, j) == {})
  {
    assert e in [e];
    assert Stamped([], w.clock + 1) == [];
  }

  lemma RedeliveryChangesNothing(c: Config, w: World, s: Step, e: Event, k: Session)
    requires c.Valid() && c.minLayers == 2 && Inv(c, w) && Alike(c, w) && k !in w.mem.revoked && Unsettled(c, w, k) == {}
    requires s == Ingest([], [e], w.clock + 1) && e in w.store && e.session == Some(k) && c.Qualifies(e)
    ensures var n := Next(c, w, s);
            && n.clock == w.clock + 1 && n.mem.revoked == Active(n.rows) == w.mem.revoked
            && Seen(c, n, k) == {e.layer} && Unsettled(c, n, k) == {}
  {
    hide Seen, Unsettled, New, Again, Candidates, Batch, EvaluateMemory, EvaluateSql, Possible, Active, WellStored;
    AgainOne(c, w, s, e, k);
    var n := Next(c, w, s);
    forall j ensures (j in n.mem.revoked <==> j in w.mem.revoked) && (j in Active(n.rows) <==> j in w.mem.revoked) {
      IngestInMemory(c, w, s, j);
      IngestInSql(c, w, s, j);
      Nothing(Seen(c, w, j));
      Nothing(Unsettled(c, w, j));
      assert {} + {} + {e.layer} == {e.layer};
    }
    IngestInMemory(c, w, s, k);
    IngestInSql(c, w, s, k);
    assert {} + {} + {e.layer} == {e.layer};
  }

  // ----- both, from the start -----------------------------------------------------------------------------------

  lemma {:induction false} RunAppend(c: Config, w: World, a: seq<Step>, b: seq<Step>)
    requires PossibleRun(c, w, a) && PossibleRun(c, Run(c, w, a), b)
    ensures PossibleRun(c, w, a + b) && Run(c, w, a + b) == Run(c, Run(c, w, a), b)
    decreases |a|
  {
    hide Next, Possible;
    if a == [] {
      assert a + b == b;
    } else {
      assert (a + b)[1..] == a[1..] + b;
      RunAppend(c, Next(c, w, a[0]), a[1..], b);
    }
  }

  lemma RunOfOne(c: Config, w: World, s: Step)
    requires Possible(w, s)
    ensures PossibleRun(c, w, [s]) && Run(c, w, [s]) == Next(c, w, s)
  {
    hide Possible, Next;
    assert [s][1..] == [];
    assert Run(c, Next(c, w, s), []) == Next(c, w, s);
  }

  function Alarm(k: Session, layer: string, now: nat): Event {
    Event(Some(k), layer, "", Critical, now)
  }

  /** One alarm of two that are needed. */
  lemma FirstAlarm(c: Config, k: Session, layer: string)
    requires c.Valid() && c.minLayers == 2 && layer in KNOWN_MODULES
    ensures var s := Ingest([Alarm(k, layer, 0)], [], 1);
            var w := Next(c, START, s);
            && Possible(START, s) && Inv(c, w) && Alike(c, w) && w.clock == 1 && w.store == [Alarm(k, layer, 1)]
            && k !in w.mem.revoked && Unsettled(c, w, k) == {layer}
  {
    var s := Ingest([Alarm(k, layer, 0)], [], 1);
    assert Alarm(k, layer, 0) in s.arriving;
    assert Stamped(s.arriving, 1) == [Alarm(k, layer, 1)];
    assert New(c, s, k) == {layer} by { assert Alarm(k, layer, 1) in [Alarm(k, layer, 1)]; }
    assert Unsettled(c, START, k) == {} && Seen(c, START, k) == {} && forall j :: Again(c, s, j) == {};
    StartIsAlike(c);
    hide Seen, Unsettled, New, Again, Alike, Inv, EvaluateMemory, EvaluateSql;
    StepKeepsInv(c, START, s);
    IngestKeepsAlike(c, START, s);
    IngestInMemory(c, START, s, k);
    IngestInSql(c, START, s, k);
    assert {} + {layer} == {layer} && {} + {layer} + {} == {layer};
    assert [] + [Alarm(k, layer, 1)] == [Alarm(k, layer, 1)];
  }

  /** Alarm, needless restore, alarm of a second layer: SQL revokes and memory does not. */
  lemma NeedlessRestoreRun(c: Config, k: Session, one: string, other: string) returns (steps: seq<Step>)
    requires c.Valid() && c.minLayers == 2 && one in KNOWN_MODULES && other in KNOWN_MODULES && one != other
    ensures PossibleRun(c, START, steps)
    ensures k in Active(Run(c, START, steps).rows) && k !in Run(c, START, steps).mem.revoked
  {
    hide Next, Possible, Inv, Alike, Unsettled;
    FirstAlarm(c, k, one);
    var first := Ingest([Alarm(k, one, 0)], [], 1);
    var w := Next(c, START, first);
    var alarm := NeedlessRestorePartsThem(c, w, k, other, Restore(k, 2));
    RunOfOne(c, START, first);
    RunAppend(c, START, [first], [Restore(k, 2), alarm]);
    steps := [first] + [Restore(k, 2), alarm];
  }

  /** Alarm, quarantine by an operator, restore, redelivery of the alarm, alarm of a second layer: memory revokes and
      SQL does not. */
  lemma RedeliveryRun(c: Config, k: Session, one: string, other: string) returns (steps: seq<Step>)
    requires c.Valid() && c.minLayers == 2 && one in KNOWN_MODULES && other in KNOWN_MODULES && one != other
    ensures PossibleRun(c, START, steps)
    ensures k in Run(c, START, steps).mem.revoked && k !in Active(Run(c, START, steps).rows)
  {
    FirstAlarm(c, k, one);
    var first := Ingest([Alarm(k, one, 0)], [], 1);
    var w := Next(c, START, first);
    QuarantineAndRestore(c, w, k);
    var w2 := Next(c, Next(c, w, Revoke(k, 2)), Restore(k, 3));
    assert Alarm(k, one, 1) in [Alarm(k, one, 1)] && c.Qualifies(Alarm(k, one, 1));
    hide Next, Possible, Inv, Alike, Unsettled, Run, PossibleRun;
    var again, alarm := RedeliveryPartsThem(c, w2, k, Alarm(k, one, 1), other);
    RunOfOne(c, START, first);
    RunOfTwo(c, w, Revoke(k, 2), Restore(k, 3));
    RunAppend(c, START, [first], [Revoke(k, 2), Restore(k, 3)]);
    RunAppend(c, START, [first] + [Revoke(k, 2), Restore(k, 3)], [again, alarm]);
    steps := [first] + [Revoke(k, 2), Restore(k, 3)] + [again, alarm];
  }

  lemma QuarantineAndRestore(c: Config, w: World, k: Session)
    requires c.Valid() && Inv(c, w) && Alike(c, w) && w.clock == 1
    ensures var w1 := Next(c, w, Revoke(k, 2));
            var w2 := Next(c, w1, Restore(k, 3));
            && Possible(w, Revoke(k, 2)) && Possible(w1, Restore(k, 3))
            && Inv(c, w2) && Alike(c, w2) && w2.clock == 3 && w2.store == w.store
            && k !in w2.mem.revoked && Unsettled(c, w2, k) == {}
  {
    hide Seen, Unsettled, Inv, Alike;
    var w1 := Next(c, w, Revoke(k, 2));
    RevokeKeepsInv(c, w, Revoke(k, 2));
    RestoreKeepsInv(c, w1, Restore(k, 3));
    RestoreKeepsAlike(c, w1, Restore(k, 3));
  }
}
