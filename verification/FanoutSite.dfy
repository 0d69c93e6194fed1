/** The dashboard's live side as one system: the listener, the broker and the streams of clients that come and go.

    A stream whose buffer overflowed is closed; what is handed to it afterwards changes nothing it puts out. */
module FanoutSite {
  import opened Wrappers
  import opened Fanout
  import opened FanoutRuns
  import opened FanoutReach
  import opened LiveListener

  /** The streams by subscriber, and the identifiers each has been handed. */
  datatype Clients = Clients(streams: map<nat, Stream>, owed: map<nat, set<string>>)

  datatype Site = Site(w: World, subscribers: seq<(nat, string)>, clients: Clients)

  datatype SiteStep =
    | Listen(step: Step)
    | Subscribe(k: nat, tenant: string)
    | EndReplay(k: nat, history: Option<seq<Event>>)
    | Leave(k: nat)

  const EMPTY_SITE := Site(LiveListener.START, [], Clients(map[], map[]))

  function Handed(c: Clients, to: seq<nat>, e: Event): Clients {
    Clients(map k | k in c.streams :: if k in to then SendLive(c.streams[k], e) else c.streams[k],
            map k | k in c.owed :: if k in to then c.owed[k] + {e.id} else c.owed[k])
  }

  /** The broker ingests one event after another. */
  function HandedEach(seen: seq<string>, subscribers: seq<(nat, string)>, c: Clients, events: seq<Event>): Clients {
    if events == [] then c
    else
      var init, e := events[..|events| - 1], events[|events| - 1];
      var before := HandedEach(seen, subscribers, c, init);
      if e.id in NoticedAll(seen, init) then before else Handed(before, Recipients(subscribers, e.tenant), e)
  }

  function Without(subscribers: seq<(nat, string)>, k: nat): seq<(nat, string)> {
    if subscribers == [] then []
    else (if subscribers[0].0 == k then [] else [subscribers[0]]) + Without(subscribers[1..], k)
  }

  function Ingested(s: Step): seq<Event> {
    match s
    case Notify(_) => []
    case LookupDone(found) => found.GetOr([])
    case Publish(event) => [event]
  }

  ghost predicate PossibleHere(x: Site, s: SiteStep) {
    match s
    case Listen(step) => Possible(x.w, step)
    case Subscribe(k, _) => k !in x.clients.streams
    case EndReplay(k, _) => k in x.clients.streams && x.clients.streams[k].replaying
    case Leave(k) => k in x.clients.streams
  }

  function After(x: Site, s: SiteStep): Site
    requires PossibleHere(x, s)
  {
    match s
    case Listen(step) =>
      Site(LiveListener.Next(x.w, step), x.subscribers, HandedEach(x.w.seen, x.subscribers, x.clients, Ingested(step)))
    case Subscribe(k, tenant) =>
      Site(x.w, x.subscribers + [(k, tenant)], Clients(x.clients.streams[k := OPENED], x.clients.owed[k := {}]))
    case EndReplay(k, history) =>
      x.(clients := x.clients.(streams := x.clients.streams[k := Replayed(x.clients.streams[k], history)]))
    case Leave(k) =>
      x.(subscribers := Without(x.subscribers, k),
         clients := x.clients.(streams := x.clients.streams[k := x.clients.streams[k].(closed := true)]))
  }

  ghost predicate PossibleSiteRun(x: Site, steps: seq<SiteStep>)
    decreases |steps|
  {
    steps == [] || (PossibleHere(x, steps[0]) && PossibleSiteRun(After(x, steps[0]), steps[1..]))
  }

  function SiteRun(x: Site, steps: seq<SiteStep>): Site
    requires PossibleSiteRun(x, steps)
    decreases |steps|
  {
    if steps == [] then x else SiteRun(After(x, steps[0]), steps[1..])
  }

  // ----- one stream ---------------------------------------------------------------------------------------------

  ghost predicate WindowIsOut(s: Stream) {
    forall id :: id in s.order ==> PutOut(s.out, id)
  }

  /** An open stream has put out whatever it was handed, or still holds it for the end of its replay. */
  ghost predicate Pays(s: Stream, owed: set<string>) {
    !s.closed ==>
      && WindowIsOut(s)
      && forall id :: id in owed ==> PutOut(s.out, id) || (s.replaying && exists e :: e in s.buffered && e.id == id)
  }

  lemma PutOutStays(out: seq<Chunk>, c: Chunk, id: string)
    requires PutOut(out, id)
    ensures PutOut(out + [c], id)
  {
    var f: Event :| f.id == id && Sent(f) in out;
    assert Sent(f) in out + [c];
  }

  lemma SendPutsOut(s: Stream, e: Event)
    requires !s.closed && WindowIsOut(s)
    ensures var t := Send(s, e);
            && !t.closed && t.replaying == s.replaying && t.buffered == s.buffered
            && WindowIsOut(t) && PutOut(t.out, e.id)
            && forall id :: PutOut(s.out, id) ==> PutOut(t.out, id)
  {
    var t := Send(s, e);
    if e.id !in s.order {
      assert Sent(e) in t.out;
      forall id | PutOut(s.out, id) ensures PutOut(t.out, id) {
        PutOutStays(s.out, Sent(e), id);
      }
      forall id | id in t.order ensures PutOut(t.out, id) {
        assert id in s.order + [e.id];
      }
    }
  }

  lemma {:induction false} SendAllPutsOut(s: Stream, events: seq<Event>)
    requires !s.closed && WindowIsOut(s)
    ensures var t := SendAll(s, events);
            && !t.closed && t.replaying == s.replaying && WindowIsOut(t)
            && (forall id :: PutOut(s.out, id) ==> PutOut(t.out, id))
            && (forall e :: e in events ==> PutOut(t.out, e.id))
    decreases |events|
  {
    hide WindowIsOut, PutOut, Send;
    if events != [] {
      var init, last := events[..|events| - 1], events[|events| - 1];
      assert events == init + [last];
      SendAllPutsOut(s, init);
      SendPutsOut(SendAll(s, init), last);
    }
  }

  lemma SendLivePays(s: Stream, owed: set<string>, e: Event)
    requires Pays(s, owed)
    ensures Pays(SendLive(s, e), owed + {e.id})
  {
    hide PutOut, WindowIsOut, Send;
    if !s.closed {
      if !s.replaying {
        SendPutsOut(s, e);
      } else if |s.buffered| < MAX_BUFFERED {
        BufferedPays(s, owed, e);
      }
    } else {
      ClosedStays(s, e);
    }
  }

  lemma ClosedStays(s: Stream, e: Event)
    requires s.closed
    ensures SendLive(s, e).closed
  {
  }

  lemma BufferedPays(s: Stream, owed: set<string>, e: Event)
    requires Pays(s, owed) && !s.closed && s.replaying
    ensures Pays(s.(buffered := s.buffered + [e]), owed + {e.id})
  {
    hide PutOut;
    var t := s.(buffered := s.buffered + [e]);
    assert t.out == s.out && t.order == s.order;
    forall id | id in owed + {e.id} ensures PutOut(t.out, id) || exists f :: f in t.buffered && f.id == id {
      if id == e.id {
        assert e in t.buffered;
      } else if !PutOut(s.out, id) {
        var f :| f in s.buffered && f.id == id;
        assert f in t.buffered;
      }
    }
  }

  lemma ReplayPays(s: Stream, owed: set<string>, history: Option<seq<Event>>)
    requires Pays(s, owed) && s.replaying
    ensures Pays(Replayed(s, history), owed)
  {
    hide PutOut, WindowIsOut, SendAll, Reversed;
    if !s.closed {
      var told := if history.Some? then SendAll(s, Reversed(history.value)) else Enqueued(s, HistoryUnavailable);
      if history.Some? {
        SendAllPutsOut(s, Reversed(history.value));
      } else {
        NoticePutsOut(s);
      }
      SameWindow(told, told.(replaying := false));
      SendAllPutsOut(told.(replaying := false), s.buffered);
      var t := SendAll(told.(replaying := false), s.buffered);
      SameWindow(t, t.(buffered := []));
    } else {
      ReplayedStaysClosed(s, history);
    }
  }

  lemma SameWindow(s: Stream, t: Stream)
    requires s.order == t.order && s.out == t.out && WindowIsOut(s)
    ensures WindowIsOut(t)
  {
  }

  lemma NoticePutsOut(s: Stream)
    requires !s.closed && WindowIsOut(s)
    ensures WindowIsOut(Fanout.Enqueued(s, HistoryUnavailable))
    ensures forall id :: PutOut(s.out, id) ==> PutOut(Fanout.Enqueued(s, HistoryUnavailable).out, id)
  {
    forall id | PutOut(s.out, id) ensures PutOut(s.out + [HistoryUnavailable], id) {
      PutOutStays(s.out, HistoryUnavailable, id);
    }
  }

  lemma ReplayedStaysClosed(s: Stream, history: Option<seq<Event>>)
    requires s.closed
    ensures Replayed(s, history).closed
  {
    hide Reversed, SendAll;
    if history.Some? {
      ClosedStaysSilent(s, Reversed(history.value));
    }
    var told := if history.Some? then SendAll(s, Reversed(history.value)) else Fanout.Enqueued(s, HistoryUnavailable);
    ClosedStaysSilent(told.(replaying := false), s.buffered);
  }

  // ----- every run ----------------------------------------------------------------------------------------------

  ghost predicate AllPay(c: Clients) {
    c.streams.Keys == c.owed.Keys && forall k :: k in c.streams ==> Pays(c.streams[k], c.owed[k])
  }

  lemma HandedPays(c: Clients, to: seq<nat>, e: Event)
    requires AllPay(c)
    ensures AllPay(Handed(c, to, e))
  {
    hide Pays, SendLive;
    var n := Handed(c, to, e);
    forall k | k in n.streams ensures Pays(n.streams[k], n.owed[k]) {
      SendLivePays(c.streams[k], c.owed[k], e);
    }
  }

  lemma {:induction false} HandedEachPays(seen: seq<string>, subscribers: seq<(nat, string)>, c: Clients, events: seq<Event>)
    requires AllPay(c)
    ensures AllPay(HandedEach(seen, subscribers, c, events))
    ensures HandedEach(seen, subscribers, c, events).owed.Keys == c.owed.Keys
    ensures forall k :: k in c.owed ==> c.owed[k] <= HandedEach(seen, subscribers, c, events).owed[k]
    decreases |events|
  {
    hide AllPay, NoticedAll, Recipients;
    if events != [] {
      HandedEachPays(seen, subscribers, c, events[..|events| - 1]);
      var before := HandedEach(seen, subscribers, c, events[..|events| - 1]);
      HandedPays(before, Recipients(subscribers, events[|events| - 1].tenant), events[|events| - 1]);
    }
  }

  lemma StepPays(x: Site, s: SiteStep)
    requires AllPay(x.clients) && PossibleHere(x, s)
    ensures AllPay(After(x, s).clients)
    ensures forall k :: k in x.clients.owed ==> k in After(x, s).clients.owed && x.clients.owed[k] <= After(x, s).clients.owed[k]
  {
    hide Pays, HandedEach, Replayed, LiveListener.Next, Possible;
    match s {
      case Listen(step) => HandedEachPays(x.w.seen, x.subscribers, x.clients, Ingested(step));
      case Subscribe(k, tenant) => OpenedPays();
      case EndReplay(k, history) => ReplayPays(x.clients.streams[k], x.clients.owed[k], history);
      case Leave(k) => LeftPays(x.clients.streams[k], x.clients.owed[k]);
    }
  }

  lemma OpenedPays()
    ensures Pays(OPENED, {})
  {
  }

  lemma LeftPays(s: Stream, owed: set<string>)
    ensures Pays(s.(closed := true), owed)
  {
  }

  lemma {:induction false} RunPays(x: Site, steps: seq<SiteStep>)
    requires AllPay(x.clients) && PossibleSiteRun(x, steps)
    ensures AllPay(SiteRun(x, steps).clients)
    ensures forall k :: k in x.clients.owed ==>
              k in SiteRun(x, steps).clients.owed && x.clients.owed[k] <= SiteRun(x, steps).clients.owed[k]
    decreases |steps|
  {
    hide AllPay, After, PossibleHere;
    if steps != [] {
      StepPays(x, steps[0]);
      RunPays(After(x, steps[0]), steps[1..]);
    }
  }

  // ----- what is ingested is owed -------------------------------------------------------------------------------

  /** The step ingests the event, which the broker has not seen when its turn comes. */
  ghost predicate Brings(x: Site, s: SiteStep, e: Event) {
    s.Listen? && exists i :: 0 <= i < |Ingested(s.step)| && Ingested(s.step)[i] == e
                             && e.id !in NoticedAll(x.w.seen, Ingested(s.step)[..i])
  }

  lemma {:induction false} IngestedIsOwed(seen: seq<string>, subscribers: seq<(nat, string)>, c: Clients, events: seq<Event>, i: nat, k: nat)
    requires AllPay(c) && k in c.owed && i < |events| && (k, events[i].tenant) in subscribers
    requires events[i].id !in NoticedAll(seen, events[..i])
    ensures k in HandedEach(seen, subscribers, c, events).owed
    ensures events[i].id in HandedEach(seen, subscribers, c, events).owed[k]
    decreases |events|
  {
    hide AllPay, NoticedAll, SendLive;
    var init := events[..|events| - 1];
    HandedEachPays(seen, subscribers, c, init);
    if i == |events| - 1 {
      RecipientsAre(subscribers, events[i].tenant, k);
      hide Recipients;
      assert k in HandedEach(seen, subscribers, c, init).owed;
    } else {
      assert init[..i] == events[..i];
      IngestedIsOwed(seen, subscribers, c, init, i, k);
      hide Recipients;
    }
  }

  /** Over every run, whoever subscribes, leaves or overflows meanwhile: an event that is ingested while a client of
      its tenant is subscribed, and that the broker had not seen, has been put out to that client by the end, unless
      its stream was closed or is still replaying. */
  lemma IngestedReachesEveryClient(x: Site, s: SiteStep, steps: seq<SiteStep>, e: Event, k: nat)
    requires AllPay(x.clients) && PossibleHere(x, s) && PossibleSiteRun(After(x, s), steps)
    requires Brings(x, s, e) && (k, e.tenant) in x.subscribers && k in x.clients.owed
    ensures var end := SiteRun(After(x, s), steps);
            && k in end.clients.streams
            && (!end.clients.streams[k].closed && !end.clients.streams[k].replaying
                ==> PutOut(end.clients.streams[k].out, e.id))
  {
    hide Pays, PutOut, HandedEach, NoticedAll, SiteRun, PossibleSiteRun, LiveListener.Next, Possible;
    var i :| 0 <= i < |Ingested(s.step)| && Ingested(s.step)[i] == e && e.id !in NoticedAll(x.w.seen, Ingested(s.step)[..i]);
    IngestedIsOwed(x.w.seen, x.subscribers, x.clients, Ingested(s.step), i, k);
    StepPays(x, s);
    RunPays(After(x, s), steps);
    var end := SiteRun(After(x, s), steps);
    PaidWhenReplayed(end.clients.streams[k], end.clients.owed[k], e.id);
  }

  lemma PaidWhenReplayed(s: Stream, owed: set<string>, id: string)
    requires Pays(s, owed) && id in owed
    ensures !s.closed && !s.replaying ==> PutOut(s.out, id)
  {
  }

  // ----- from the start -----------------------------------------------------------------------------------------

  /** Subscribers are the keys of streams. */
  ghost predicate Known(x: Site) {
    && AllPay(x.clients) && Awake(x.w) && Accounted(x.w)
    && forall s :: s in x.subscribers ==> s.0 in x.clients.owed
  }

  lemma {:induction false} WithoutIs(subscribers: seq<(nat, string)>, gone: nat, s: (nat, string))
    ensures s in Without(subscribers, gone) <==> s in subscribers && s.0 != gone
  {
    if subscribers != [] {
      WithoutIs(subscribers[1..], gone, s);
      assert subscribers == [subscribers[0]] + subscribers[1..];
    }
  }

  lemma StepIsKnown(x: Site, s: SiteStep)
    requires Known(x) && PossibleHere(x, s)
    ensures Known(After(x, s))
  {
    StepPays(x, s);
    hide AllPay, HandedEach, Replayed, Accounted, Awake, LiveListener.Next;
    match s {
      case Listen(step) => ListenerKeeps(x.w, step);
      case Subscribe(k, tenant) =>
      case EndReplay(k, history) =>
      case Leave(k) =>
        forall t | t in Without(x.subscribers, k) ensures t in x.subscribers {
          WithoutIs(x.subscribers, k, t);
        }
    }
  }

  lemma ListenerKeeps(w: World, s: Step)
    requires Awake(w) && Accounted(w) && Possible(w, s)
    ensures Awake(LiveListener.Next(w, s)) && Accounted(LiveListener.Next(w, s))
  {
    hide Awake, Accounted, LiveListener.Next;
    match s {
      case Notify(_) => NotifyKeeps(w, s);
      case LookupDone(_) => LookupKeeps(w, s);
      case Publish(_) => PublishKeeps(w, s);
    }
  }

  lemma {:induction false} RunIsKnown(x: Site, steps: seq<SiteStep>)
    requires Known(x) && PossibleSiteRun(x, steps)
    ensures Known(SiteRun(x, steps))
    decreases |steps|
  {
    hide Known, After, PossibleHere;
    if steps != [] {
      StepIsKnown(x, steps[0]);
      RunIsKnown(After(x, steps[0]), steps[1..]);
    }
  }

  lemma EmptyIsKnown()
    ensures Known(EMPTY_SITE)
  {
    StartIsAwake();
    hide Awake, Accounted;
  }

  /** From notification to client, in every run from the empty site. When the listener is idle every notification has
      been looked up or had been seen; and what a lookup found, or the site published, the broker not having seen it,
      has been put out to every client of its tenant then subscribed whose stream is open and past its replay. */
  lemma FromNotificationToClient(before: seq<SiteStep>, s: SiteStep, later: seq<SiteStep>, e: Event, k: nat)
    requires PossibleSiteRun(EMPTY_SITE, before)
    requires PossibleHere(SiteRun(EMPTY_SITE, before), s) && PossibleSiteRun(After(SiteRun(EMPTY_SITE, before), s), later)
    ensures var x := SiteRun(EMPTY_SITE, before);
            var end := SiteRun(After(x, s), later);
            && (!end.w.l.draining ==> end.w.asked == end.w.settled)
            && (Brings(x, s, e) && (k, e.tenant) in x.subscribers
                ==> && k in end.clients.streams
                    && (!end.clients.streams[k].closed && !end.clients.streams[k].replaying
                        ==> PutOut(end.clients.streams[k].out, e.id)))
  {
    hide AllPay, Awake, Accounted, Brings, PutOut, After, PossibleHere;
    EmptyIsKnown();
    RunIsKnown(EMPTY_SITE, before);
    var x := SiteRun(EMPTY_SITE, before);
    StepIsKnown(x, s);
    RunIsKnown(After(x, s), later);
    IdleMeansSettled(SiteRun(After(x, s), later).w);
    if Brings(x, s, e) && (k, e.tenant) in x.subscribers {
      assert (k, e.tenant).0 in x.clients.owed;
      IngestedReachesEveryClient(x, s, later, e, k);
    }
  }
}
