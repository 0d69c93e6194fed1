/** The database listener (live-event-listener.ts): notifications are coalesced into one drain that waits for the
    database between batches, while further notifications and events arrive. */
module LiveListener {
  import opened Wrappers
  import opened Fanout

  datatype Notification = Notification(tenant: string, id: string)

  datatype Batch = Batch(tenant: string, ids: seq<string>)

  // ----- the pending map ----------------------------------------------------------------------------------------

  function Key(n: Notification): string {
    n.tenant + "/" + n.id
  }

  /** The identifier is a UUID, so it holds no slash, and the key splits at its last one. */
  lemma {:induction false} KeyIsInjective(a: Notification, b: Notification)
    requires '/' !in a.id && '/' !in b.id && Key(a) == Key(b)
    ensures a == b
  {
    var n, m := |a.tenant|, |b.tenant|;
    assert Key(a)[n] == Key(b)[m] == '/';
    assert forall i :: n < i < |Key(a)| ==> Key(a)[i] == a.id[i - n - 1];
    assert forall i :: m < i < |Key(b)| ==> Key(b)[i] == b.id[i - m - 1];
    assert n == m;
    assert Key(a)[..n] == a.tenant && Key(b)[..m] == b.tenant;
    assert Key(a)[n + 1..] == a.id && Key(b)[m + 1..] == b.id;
  }

  /** `Map.set`: a key that is there keeps its place. */
  function Put(pending: seq<Notification>, n: Notification): seq<Notification> {
    if pending == [] then [n]
    else if Key(pending[0]) == Key(n) then [n] + pending[1..]
    else [pending[0]] + Put(pending[1..], n)
  }

  ghost predicate NoSlashes(ns: seq<Notification>) {
    forall i :: 0 <= i < |ns| ==> '/' !in ns[i].id
  }

  /** Putting a notification adds it, and drops no other. */
  lemma {:induction false} PutAdds(pending: seq<Notification>, n: Notification)
    requires NoSlashes(pending) && '/' !in n.id
    ensures NoSlashes(Put(pending, n))
    ensures forall x :: x in Put(pending, n) <==> x == n || x in pending
    ensures |Put(pending, n)| <= |pending| + 1
  {
    if pending != [] {
      var rest := pending[1..];
      assert pending == [pending[0]] + rest;
      if Key(pending[0]) == Key(n) {
        KeyIsInjective(pending[0], n);
      } else {
        PutAdds(rest, n);
      }
    }
  }

  // ----- batches ------------------------------------------------------------------------------------------------

  function Listed(batches: seq<Batch>, n: Notification): seq<Batch> {
    if batches == [] then [Batch(n.tenant, [n.id])]
    else if batches[0].tenant == n.tenant then [Batch(n.tenant, batches[0].ids + [n.id])] + batches[1..]
    else [batches[0]] + Listed(batches[1..], n)
  }

  /** One batch for each tenant, leaving out what the broker has seen. */
  function Batched(seen: seq<string>, pending: seq<Notification>): seq<Batch> {
    if pending == [] then []
    else
      var n, before := pending[|pending| - 1], Batched(seen, pending[..|pending| - 1]);
      if n.id in seen then before else Listed(before, n)
  }

  ghost predicate Holds(batches: seq<Batch>, n: Notification) {
    exists i :: 0 <= i < |batches| && batches[i].tenant == n.tenant && n.id in batches[i].ids
  }

  ghost predicate OnePerTenant(batches: seq<Batch>) {
    && (forall i :: 0 <= i < |batches| ==> batches[i].ids != [])
    && (forall i, j :: 0 <= i < j < |batches| ==> batches[i].tenant != batches[j].tenant)
  }

  lemma HoldsFirst(b: Batch, rest: seq<Batch>, n: Notification)
    ensures Holds([b] + rest, n) <==> (b.tenant == n.tenant && n.id in b.ids) || Holds(rest, n)
  {
    var all := [b] + rest;
    if Holds(rest, n) {
      var i :| 0 <= i < |rest| && rest[i].tenant == n.tenant && n.id in rest[i].ids;
      assert all[i + 1] == rest[i];
    }
    if b.tenant == n.tenant && n.id in b.ids {
      assert all[0] == b;
    }
    if Holds(all, n) {
      var i :| 0 <= i < |all| && all[i].tenant == n.tenant && n.id in all[i].ids;
      assert i > 0 ==> rest[i - 1] == all[i];
    }
  }

  lemma {:induction false} ListedHolds(batches: seq<Batch>, n: Notification, x: Notification)
    ensures Holds(Listed(batches, n), x) <==> x == n || Holds(batches, x)
    ensures |batches| <= |Listed(batches, n)| <= |batches| + 1
  {
    if batches == [] {
      HoldsFirst(Batch(n.tenant, [n.id]), [], x);
      assert Listed(batches, n) == [Batch(n.tenant, [n.id])] + [];
    } else {
      var b, rest := batches[0], batches[1..];
      assert batches == [b] + rest;
      HoldsFirst(b, rest, x);
      if b.tenant == n.tenant {
        HoldsFirst(Batch(n.tenant, b.ids + [n.id]), rest, x);
      } else {
        ListedHolds(rest, n, x);
        HoldsFirst(b, Listed(rest, n), x);
      }
    }
  }

  lemma {:induction false} BatchedHolds(seen: seq<string>, pending: seq<Notification>, x: Notification)
    ensures Holds(Batched(seen, pending), x) <==> x in pending && x.id !in seen
    ensures |Batched(seen, pending)| <= |pending|
    decreases |pending|
  {
    if pending != [] {
      var n, init := pending[|pending| - 1], pending[..|pending| - 1];
      assert pending == init + [n];
      BatchedHolds(seen, init, x);
      ListedHolds(Batched(seen, init), n, x);
    }
  }

  lemma {:induction false} ListedOnePerTenant(batches: seq<Batch>, n: Notification)
    requires OnePerTenant(batches)
    ensures OnePerTenant(Listed(batches, n))
    ensures forall i :: 0 <= i < |Listed(batches, n)| ==>
              Listed(batches, n)[i].tenant == n.tenant || exists j :: 0 <= j < |batches| && batches[j].tenant == Listed(batches, n)[i].tenant
  {
    if batches != [] && batches[0].tenant != n.tenant {
      var rest := batches[1..];
      ListedOnePerTenant(rest, n);
      var listed := Listed(rest, n);
      forall i | 0 <= i < |listed| ensures listed[i].tenant != batches[0].tenant {
        if listed[i].tenant != n.tenant {
          var j :| 0 <= j < |rest| && rest[j].tenant == listed[i].tenant;
          assert batches[j + 1] == rest[j];
        }
      }
    }
  }

  /** A burst costs one lookup for each tenant, and no lookup is empty. */
  lemma {:induction false} BatchedOnePerTenant(seen: seq<string>, pending: seq<Notification>)
    ensures OnePerTenant(Batched(seen, pending))
    decreases |pending|
  {
    hide OnePerTenant;
    if pending != [] {
      var n, init := pending[|pending| - 1], pending[..|pending| - 1];
      BatchedOnePerTenant(seen, init);
      ListedOnePerTenant(Batched(seen, init), n);
    } else {
      NoBatches();
    }
  }

  lemma NoBatches()
    ensures OnePerTenant([])
  {
  }

  // ----- the listener -------------------------------------------------------------------------------------------

  /** Between two steps a running drain waits for the lookup of its first batch. */
  datatype Listener = Listener(pending: seq<Notification>, draining: bool, batches: seq<Batch>)

  const IDLE := Listener([], false, [])

  /** The drain's loop, from where its batches are used up to its next wait or its end. */
  function Resumed(l: Listener, seen: seq<string>): Listener {
    var batches := Batched(seen, l.pending);
    Listener([], batches != [], batches)
  }

  function Queued(l: Listener, seen: seq<string>, n: Notification): Listener {
    if n.id in seen then l
    else
      var next := l.(pending := Put(l.pending, n));
      if l.draining then next else Resumed(next, seen)
  }

  function LookedUp(l: Listener, seen: seq<string>): Listener
    requires l.batches != []
  {
    if |l.batches| > 1 then l.(batches := l.batches[1..]) else Resumed(l, seen)
  }

  class LiveEventListener {
    const broker: Broker
    var pending: seq<Notification>
    var draining: bool
    var batches: seq<Batch>

    function Value(): Listener
      reads this
    {
      Listener(pending, draining, batches)
    }

    ghost predicate Valid()
      reads this, broker
    {
      broker.Valid() && (draining <==> batches != [])
    }

    constructor (b: Broker)
      requires b.Valid()
      ensures broker == b && Valid() && Value() == IDLE
    {
      broker, pending, draining, batches := b, [], false, [];
    }

    method Enqueue(n: Notification)
      requires Valid()
      modifies this
      ensures Valid()
      ensures Value() == Queued(old(Value()), broker.seenOrder, n)
    {
      if broker.HasSeen(n.id) {
        return;
      }
      pending := Put(pending, n);
      Drain();
    }

    /** A second drain never starts while one is running. */
    method Drain()
      requires broker.Valid() && (draining <==> batches != [])
      modifies this
      ensures Valid()
      ensures Value() == if old(draining) then old(Value()) else Resumed(old(Value()), broker.seenOrder)
    {
      if draining {
        return;
      }
      draining := true;
      TakeBatches();
    }

    /** The loop over the pending map, repeated while everything it takes has been seen. */
    method TakeBatches()
      requires broker.Valid() && batches == [] && draining
      modifies this
      ensures Valid() && Value() == Resumed(old(Value()), broker.seenOrder)
    {
      ghost var start := Value();
      while pending != [] && batches == []
        invariant broker.Valid() && draining
        invariant || (pending == start.pending && batches == [])
                  || (pending == [] && batches == Batched(broker.seenOrder, start.pending))
        decreases |pending|
      {
        TakeAll();
      }
      draining := batches != [];
    }

    method TakeAll()
      requires broker.Valid() && batches == []
      modifies this`pending, this`batches
      ensures pending == [] && batches == Batched(broker.seenOrder, old(pending))
    {
      var entries := pending;
      var i := 0;
      while i < |entries|
        invariant i <= |entries| && pending == entries[i..]
        invariant batches == Batched(broker.seenOrder, entries[..i])
      {
        var n := entries[i];
        assert entries[..i + 1][..i] == entries[..i];
        pending := pending[1..];
        if !broker.HasSeen(n.id) {
          batches := Listed(batches, n);
        }
        i := i + 1;
      }
      assert entries[..i] == entries;
    }

    /** The database answered for the first batch, or the lookup failed and was logged. */
    method LookupEnds(found: Option<seq<Event>>) returns (handed: seq<(nat, Event)>)
      requires Valid() && draining
      modifies this, broker`seenIds, broker`seenOrder
      ensures Valid()
      ensures broker.seenOrder == NoticedAll(old(broker.seenOrder), found.GetOr([]))
      ensures handed == HandedAll(old(broker.seenOrder), broker.subscribers, found.GetOr([]))
      ensures Value() == LookedUp(old(Value()), broker.seenOrder)
    {
      handed := [];
      var events := found.GetOr([]);
      var i := 0;
      while i < |events|
        invariant i <= |events| && broker.Valid() && Value() == old(Value())
        invariant broker.subscribers == old(broker.subscribers)
        invariant broker.seenOrder == NoticedAll(old(broker.seenOrder), events[..i])
        invariant handed == HandedAll(old(broker.seenOrder), broker.subscribers, events[..i])
      {
        assert events[..i + 1][..i] == events[..i];
        var to := broker.Ingest(events[i]);
        handed := handed + To(to, events[i]);
        i := i + 1;
      }
      assert events[..i] == events;
      batches := batches[1..];
      if batches == [] {
        TakeBatches();
      }
    }
  }

  function NoticedAll(seen: seq<string>, events: seq<Event>): seq<string> {
    if events == [] then seen else Noticed(NoticedAll(seen, events[..|events| - 1]), events[|events| - 1].id)
  }

  function To(subscribers: seq<nat>, e: Event): (r: seq<(nat, Event)>)
    ensures |r| == |subscribers|
  {
    seq(|subscribers|, i requires 0 <= i < |subscribers| => (subscribers[i], e))
  }

  function HandedAll(seen: seq<string>, subscribers: seq<(nat, string)>, events: seq<Event>): seq<(nat, Event)> {
    if events == [] then []
    else
      var init, e := events[..|events| - 1], events[|events| - 1];
      HandedAll(seen, subscribers, init)
      + if e.id in NoticedAll(seen, init) then [] else To(Recipients(subscribers, e.tenant), e)
  }

  // ----- runs ---------------------------------------------------------------------------------------------------

  /** What happens between two waits. Events also reach the broker by other ways than the listener. */
  datatype Step =
    | Notify(n: Notification)
    | LookupDone(found: Option<seq<Event>>)
    | Publish(event: Event)

  /** `asked` and `settled` record what was notified, and what was looked up or had been seen. */
  datatype World = World(l: Listener, seen: seq<string>, asked: set<Notification>, settled: set<Notification>)

  function SeenOf(pending: seq<Notification>, seen: seq<string>): set<Notification> {
    set n | n in pending && n.id in seen
  }

  function Members(b: Batch): set<Notification> {
    set id | id in b.ids :: Notification(b.tenant, id)
  }

  ghost predicate Possible(w: World, s: Step) {
    match s
    case Notify(n) => '/' !in n.id
    case LookupDone(_) => w.l.draining && w.l.batches != []
    case Publish(_) => true
  }

  /** A take settles what the broker has seen by then; the rest waits in the batches. */
  function Next(w: World, s: Step): World
    requires s.LookupDone? ==> w.l.batches != []
  {
    match s
    case Notify(n) =>
      var queued := Put(w.l.pending, n);
      World(Queued(w.l, w.seen, n), w.seen, w.asked + {n},
            if n.id in w.seen then w.settled + {n}
            else if w.l.draining then w.settled
            else w.settled + SeenOf(queued, w.seen))
    case LookupDone(found) =>
      var seen := NoticedAll(w.seen, found.GetOr([]));
      World(LookedUp(w.l, seen), seen, w.asked,
            w.settled + Members(w.l.batches[0])
            + if |w.l.batches| > 1 then {} else SeenOf(w.l.pending, seen))
    case Publish(event) => w.(seen := Noticed(w.seen, event.id))
  }

  ghost predicate Awake(w: World) {
    && NoSlashes(w.l.pending)
    && (w.l.draining <==> w.l.batches != [])
    && (w.l.pending != [] ==> w.l.draining)
  }

  ghost predicate Accounted(w: World) {
    && (forall n :: n in w.asked ==> n in w.l.pending || Holds(w.l.batches, n) || n in w.settled)
    && (forall n :: n in w.l.pending || Holds(w.l.batches, n) || n in w.settled ==> n in w.asked)
  }

  lemma NoneHeld(n: Notification)
    ensures !Holds([], n)
  {
  }

  lemma FirstMembers(b: Batch, rest: seq<Batch>, n: Notification)
    ensures Holds([b] + rest, n) <==> n in Members(b) || Holds(rest, n)
  {
    HoldsFirst(b, rest, n);
    if b.tenant == n.tenant && n.id in b.ids {
      assert n == Notification(b.tenant, n.id);
    }
  }

  /** A take moves every pending notification into a batch, unless it was seen. */
  lemma TakeAccounts(pending: seq<Notification>, seen: seq<string>, n: Notification)
    ensures n in pending <==> Holds(Batched(seen, pending), n) || n in SeenOf(pending, seen)
    ensures Holds(Batched(seen, pending), n) ==> n !in SeenOf(pending, seen)
  {
    BatchedHolds(seen, pending, n);
  }

  lemma NotifyKeeps(w: World, s: Step)
    requires Awake(w) && Accounted(w) && Possible(w, s) && s.Notify?
    ensures Awake(Next(w, s)) && Accounted(Next(w, s))
  {
    hide Put, Batched, Holds, SeenOf;
    PutAdds(w.l.pending, s.n);
    var next := Next(w, s);
    forall n ensures n in next.asked <==> n in next.l.pending || Holds(next.l.batches, n) || n in next.settled {
      TakeAccounts(Put(w.l.pending, s.n), w.seen, n);
      NoneHeld(n);
    }
  }

  lemma LookupKeeps(w: World, s: Step)
    requires Awake(w) && Accounted(w) && Possible(w, s) && s.LookupDone?
    ensures Awake(Next(w, s)) && Accounted(Next(w, s))
  {
    hide Batched, Holds, SeenOf, Members, NoticedAll;
    var next := Next(w, s);
    var b, rest := w.l.batches[0], w.l.batches[1..];
    assert w.l.batches == [b] + rest;
    forall n ensures n in next.asked <==> n in next.l.pending || Holds(next.l.batches, n) || n in next.settled {
      FirstMembers(b, rest, n);
      TakeAccounts(w.l.pending, next.seen, n);
      NoneHeld(n);
    }
  }

  function Run(w: World, steps: seq<Step>): World
    requires PossibleRun(w, steps)
    decreases |steps|
  {
    if steps == [] then w else Run(Next(w, steps[0]), steps[1..])
  }

  ghost predicate PossibleRun(w: World, steps: seq<Step>)
    decreases |steps|
  {
    steps == [] || (Possible(w, steps[0]) && PossibleRun(Next(w, steps[0]), steps[1..]))
  }

  /** Over every interleaving no wake-up is lost: whatever is pending has a drain that will come back for it, and
      whatever was notified is pending, in a batch, looked up or had been seen. */
  lemma {:induction false} NoLostWakeUp(w: World, steps: seq<Step>)
    requires Awake(w) && Accounted(w) && PossibleRun(w, steps)
    ensures var end := Run(w, steps);
            && Awake(end) && Accounted(end)
            && (!end.l.draining ==> end.asked == end.settled)
    decreases |steps|
  {
    hide Accounted;
    if steps == [] {
      IdleMeansSettled(w);
    } else {
      var s := steps[0];
      match s {
        case Notify(_) => NotifyKeeps(w, s);
        case LookupDone(_) => LookupKeeps(w, s);
        case Publish(_) => PublishKeeps(w, s);
      }
      NoLostWakeUp(Next(w, s), steps[1..]);
    }
  }

  lemma PublishKeeps(w: World, s: Step)
    requires Awake(w) && Accounted(w) && s.Publish?
    ensures Awake(Next(w, s)) && Accounted(Next(w, s))
  {
  }

  lemma IdleMeansSettled(w: World)
    requires Awake(w) && Accounted(w)
    ensures !w.l.draining ==> w.asked == w.settled
  {
    if !w.l.draining {
      forall n ensures !Holds(w.l.batches, n) { NoneHeld(n); }
    }
  }

  const START := World(IDLE, [], {}, {})

  lemma StartIsAwake()
    ensures Awake(START) && Accounted(START)
  {
    forall n ensures !Holds(START.l.batches, n) { NoneHeld(n); }
  }

  /** In particular from the start. */
  lemma EveryRunIsAwake(steps: seq<Step>)
    requires PossibleRun(START, steps)
    ensures var end := Run(START, steps);
            Awake(end) && Accounted(end) && (!end.l.draining ==> end.asked == end.settled)
  {
    StartIsAwake();
    NoLostWakeUp(START, steps);
  }

  /** Each lookup brings a drain nearer its end: without further notifications it makes no more of them than
      there are batches and pending notifications. */
  lemma LookupsRunOut(w: World, s: Step)
    requires Possible(w, s) && s.LookupDone?
    ensures |Next(w, s).l.batches| + |Next(w, s).l.pending| < |w.l.batches| + |w.l.pending|
  {
    hide NoticedAll;
    BatchedHolds(Next(w, s).seen, w.l.pending, Notification("", ""));
  }
}
