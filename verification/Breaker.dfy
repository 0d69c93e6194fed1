/** The cross-layer circuit breaker (incident-store.ts): the in-memory decision, with its running module
    sets and its per-session index, and the SQL rule it stands in for. */
module Breaker {
  import opened Wrappers

  datatype Severity = Info | Warning | Critical

  /** The tenant, agent and session an event belongs to. */
  datatype Session = Session(tenant: string, agent: string, session: string)

  datatype Event = Event(session: Option<Session>, layer: string, eventType: string, severity: Severity, receivedMs: nat)

  const KNOWN_MODULES: set<string> := {"mcp-shield", "vector-anchor", "trace-audit"}

  datatype Config = Config(severities: set<Severity>, minLayers: nat) {
    predicate Valid() {
      1 <= minLayers <= 3 && Critical in severities
    }

    /** Evidence for the breaker; a refusal caused by a revocation is not. */
    predicate Qualifies(e: Event) {
      e.severity in severities && e.layer in KNOWN_MODULES && e.eventType != "session_quarantined"
    }
  }

  /** The distinct layers with evidence for a session received after a watermark. */
  function Layers(c: Config, store: seq<Event>, k: Session, after: int): set<string> {
    set e | e in store && e.session == Some(k) && c.Qualifies(e) && e.receivedMs > after :: e.layer
  }

  /** The layers with evidence in a list of events already selected by session. */
  function LayersIn(c: Config, events: seq<Event>, after: int): set<string> {
    set e | e in events && c.Qualifies(e) && e.receivedMs > after :: e.layer
  }

  ghost predicate Indexes(index: map<Session, seq<Event>>, store: seq<Event>) {
    forall k, e :: (k in index && e in index[k]) <==> (e in store && e.session == Some(k))
  }

  function Indexed(index: map<Session, seq<Event>>, k: Session): seq<Event> {
    if k in index then index[k] else []
  }

  lemma LayersFromIndex(c: Config, store: seq<Event>, index: map<Session, seq<Event>>, k: Session, after: int)
    requires Indexes(index, store)
    ensures LayersIn(c, Indexed(index, k), after) == Layers(c, store, k, after)
  {
    forall e ensures e in Indexed(index, k) <==> e in store && e.session == Some(k) {
    }
  }

  function Candidates(batch: seq<Event>): set<Session> {
    set e | e in batch && e.session.Some? :: e.session.value
  }

  // ----- in memory ----------------------------------------------------------------------------------------------

  datatype Memory = Memory(modules: map<Session, set<string>>, restoredAt: map<Session, nat>, revoked: set<Session>)

  function ModulesOf(m: Memory, k: Session): set<string> {
    if k in m.modules then m.modules[k] else {}
  }

  function Noted(c: Config, m: Memory, e: Event): Memory {
    if e.session.Some? && c.Qualifies(e)
    then m.(modules := m.modules[e.session.value := ModulesOf(m, e.session.value) + {e.layer}])
    else m
  }

  function NoteAll(c: Config, m: Memory, batch: seq<Event>): Memory {
    if batch == [] then m else Noted(c, NoteAll(c, m, batch[..|batch| - 1]), batch[|batch| - 1])
  }

  /** What the breaker counts for one candidate: the running set and a scan of the session's events. */
  function Counted(c: Config, m: Memory, store: seq<Event>, k: Session): set<string> {
    ModulesOf(m, k) + Layers(c, store, k, Watermark(m, k))
  }

  function Watermark(m: Memory, k: Session): nat {
    if k in m.restoredAt then m.restoredAt[k] else 0
  }

  function Revoked(m: Memory, k: Session): Memory {
    m.(revoked := m.revoked + {k}, restoredAt := m.restoredAt - {k})
  }

  function Restored(m: Memory, k: Session, now: nat): Memory {
    Memory(m.modules - {k}, m.restoredAt[k := now], m.revoked - {k})
  }

  function Tripped(c: Config, m: Memory, store: seq<Event>, candidates: set<Session>): set<Session> {
    set k | k in candidates && |Counted(c, m, store, k)| >= c.minLayers && k !in m.revoked
  }

  /** `evaluateSessionCircuitBreaker` without a database. */
  function EvaluateMemory(c: Config, m: Memory, store: seq<Event>, batch: seq<Event>): Memory {
    var noted := NoteAll(c, m, batch);
    After(noted, Tripped(c, noted, store, Candidates(batch)))
  }

  class MemoryBreaker {
    const config: Config
    var modules: map<Session, set<string>>
    var restoredAt: map<Session, nat>
    var revoked: set<Session>

    constructor (c: Config)
      ensures config == c && Value() == Memory(map[], map[], {})
    {
      config := c;
      modules, restoredAt, revoked := map[], map[], {};
    }

    function Value(): Memory
      reads this
    {
      Memory(modules, restoredAt, revoked)
    }

    method Revoke(k: Session)
      modifies this
      ensures Value() == Revoked(old(Value()), k)
    {
      revoked := revoked + {k};
      restoredAt := restoredAt - {k};
    }

    method Restore(k: Session, now: nat) returns (had: bool)
      modifies this
      ensures had == (k in old(revoked))
      ensures Value() == Restored(old(Value()), k, now)
    {
      had := k in revoked;
      revoked := revoked - {k};
      modules := modules - {k};
      restoredAt := restoredAt[k := now];
    }

    method Note(batch: seq<Event>)
      modifies this
      ensures Value() == NoteAll(config, old(Value()), batch)
    {
      var i := 0;
      while i < |batch|
        invariant i <= |batch| && Value() == NoteAll(config, old(Value()), batch[..i])
      {
        var event := batch[i];
        assert batch[..i + 1][..i] == batch[..i];
        if event.session.Some? && config.Qualifies(event) {
          var k := event.session.value;
          modules := modules[k := (if k in modules then modules[k] else {}) + {event.layer}];
        }
        i := i + 1;
      }
      assert batch[..i] == batch;
    }

    /** The events of each session, collected once for the whole batch. */
    method Index(store: seq<Event>) returns (index: map<Session, seq<Event>>)
      ensures Indexes(index, store)
    {
      index := map[];
      var i := 0;
      while i < |store|
        invariant i <= |store| && Indexes(index, store[..i])
      {
        var event := store[i];
        ghost var before := index;
        assert store[..i + 1] == store[..i] + [event];
        if event.session.Some? {
          var k := event.session.value;
          index := index[k := Indexed(index, k) + [event]];
        }
        i := i + 1;
      }
      assert store[..i] == store;
    }

    method Evaluate(store: seq<Event>, batch: seq<Event>)
      modifies this
      ensures Value() == EvaluateMemory(config, old(Value()), store, batch)
    {
      Note(batch);
      ghost var noted := Value();
      var index := Index(store);
      var all := Candidates(batch);
      var candidates := all;
      while candidates != {}
        invariant candidates <= all
        invariant Value() == After(noted, Tripped(config, noted, store, all - candidates))
      {
        var k :| k in candidates;
        var done := all - candidates;
        assert all - (candidates - {k}) == done + {k};
        TrippedAdd(config, noted, store, done, k);
        var counted := Count(k, index);
        LayersFromIndex(config, store, index, k, Watermark(noted, k));
        if |counted| >= config.minLayers && k !in revoked {
          Revoke(k);
        }
        candidates := candidates - {k};
      }
      assert all - candidates == all;
    }

    method Count(k: Session, index: map<Session, seq<Event>>) returns (counted: set<string>)
      ensures counted == ModulesOf(Value(), k) + LayersIn(config, Indexed(index, k), Watermark(Value(), k))
    {
      counted := if k in modules then modules[k] else {};
      var events := if k in index then index[k] else [];
      var watermark := if k in restoredAt then restoredAt[k] else 0;
      ghost var start := counted;
      var i := 0;
      while i < |events|
        invariant i <= |events|
        invariant counted == start + LayersIn(config, events[..i], watermark)
      {
        var e := events[i];
        assert events[..i + 1] == events[..i] + [e];
        if config.Qualifies(e) && e.receivedMs > watermark {
          counted := counted + {e.layer};
        }
        i := i + 1;
      }
      assert events[..i] == events;
    }
  }

  function After(m: Memory, tripped: set<Session>): Memory {
    m.(revoked := m.revoked + tripped, restoredAt := m.restoredAt - tripped)
  }

  /** Judging one more candidate never depends on the candidates judged before it. */
  lemma TrippedAdd(c: Config, m: Memory, store: seq<Event>, done: set<Session>, k: Session)
    requires k !in done
    ensures var before := After(m, Tripped(c, m, store, done));
            After(m, Tripped(c, m, store, done + {k}))
            == if |Counted(c, m, store, k)| >= c.minLayers && k !in before.revoked then Revoked(before, k) else before
    ensures Watermark(After(m, Tripped(c, m, store, done)), k) == Watermark(m, k)
  {
    var tripped := Tripped(c, m, store, done);
    assert k !in tripped;
    if |Counted(c, m, store, k)| >= c.minLayers && k !in m.revoked {
      assert Tripped(c, m, store, done + {k}) == tripped + {k};
      assert m.revoked + (tripped + {k}) == m.revoked + tripped + {k};
      assert m.restoredAt - (tripped + {k}) == m.restoredAt - tripped - {k};
    } else {
      assert Tripped(c, m, store, done + {k}) == tripped;
    }
  }
}
