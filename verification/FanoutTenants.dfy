/** No client is shown another tenant's events. */
module FanoutTenants {
  import opened Wrappers
  import opened Fanout
  import opened LiveListener
  import opened FanoutSite

  /** All that a stream has put out, and all that it holds back, is the tenant's. */
  ghost predicate Own(s: Stream, tenant: string) {
    && (forall e :: Sent(e) in s.out ==> e.tenant == tenant)
    && (forall e :: e in s.buffered ==> e.tenant == tenant)
  }

  lemma SendOwn(s: Stream, e: Event, tenant: string)
    requires Own(s, tenant) && e.tenant == tenant
    ensures Own(Send(s, e), tenant)
  {
  }

  lemma {:induction false} SendAllOwn(s: Stream, events: seq<Event>, tenant: string)
    requires Own(s, tenant) && forall e :: e in events ==> e.tenant == tenant
    ensures Own(SendAll(s, events), tenant)
    decreases |events|
  {
    hide Own, Send;
    if events != [] {
      var init, last := events[..|events| - 1], events[|events| - 1];
      assert events == init + [last];
      SendAllOwn(s, init, tenant);
      SendOwn(SendAll(s, init), last, tenant);
    }
  }

  lemma SendLiveOwn(s: Stream, e: Event, tenant: string)
    requires Own(s, tenant) && e.tenant == tenant
    ensures Own(SendLive(s, e), tenant)
  {
    hide Send;
    SendOwn(s, e, tenant);
  }

  lemma ReplayedOwn(s: Stream, history: Option<seq<Event>>, tenant: string)
    requires Own(s, tenant) && (history.Some? ==> forall e :: e in history.value ==> e.tenant == tenant)
    ensures Own(Replayed(s, history), tenant)
  {
    hide SendAll;
    var told := Fanout.Enqueued(s, HistoryUnavailable);
    if history.Some? {
      SendAllOwn(s, Reversed(history.value), tenant);
      told := SendAll(s, Reversed(history.value));
    }
    SendAllOwn(told.(replaying := false), s.buffered, tenant);
  }

  /** What one client has and may get is its own tenant's. */
  ghost predicate Kept(subscribers: seq<(nat, string)>, c: Clients, k: nat, tenant: string) {
    && (forall t :: (k, t) in subscribers ==> t == tenant)
    && (if k in c.streams then Own(c.streams[k], tenant) else forall t :: (k, t) !in subscribers)
  }

  lemma HandedKeeps(subscribers: seq<(nat, string)>, c: Clients, e: Event, k: nat, tenant: string)
    requires Kept(subscribers, c, k, tenant)
    ensures Kept(subscribers, Handed(c, Recipients(subscribers, e.tenant), e), k, tenant)
  {
    RecipientsAre(subscribers, e.tenant, k);
    hide Recipients, Own, SendLive;
    if k in c.streams && e.tenant == tenant {
      SendLiveOwn(c.streams[k], e, tenant);
    }
  }

  lemma {:induction false} HandedEachKeeps(seen: seq<string>, subscribers: seq<(nat, string)>, c: Clients, events: seq<Event>, k: nat, tenant: string)
    requires Kept(subscribers, c, k, tenant)
    ensures Kept(subscribers, HandedEach(seen, subscribers, c, events), k, tenant)
    decreases |events|
  {
    hide Kept, Handed, Recipients, LiveListener.NoticedAll;
    if events != [] {
      var init, last := events[..|events| - 1], events[|events| - 1];
      HandedEachKeeps(seen, subscribers, c, init, k, tenant);
      HandedKeeps(subscribers, HandedEach(seen, subscribers, c, init), last, k, tenant);
    }
  }

  /** The client subscribes for that tenant, and the history it is replayed is that tenant's. */
  predicate For(s: SiteStep, k: nat, tenant: string) {
    match s
    case Subscribe(j, t) => j == k ==> t == tenant
    case EndReplay(j, history) => j == k && history.Some? ==> forall e :: e in history.value ==> e.tenant == tenant
    case _ => true
  }

  lemma AfterKeeps(x: Site, s: SiteStep, k: nat, tenant: string)
    requires PossibleHere(x, s) && For(s, k, tenant) && Kept(x.subscribers, x.clients, k, tenant)
    ensures Kept(After(x, s).subscribers, After(x, s).clients, k, tenant)
  {
    hide HandedEach, Replayed, FanoutSite.Without, LiveListener.Next, LiveListener.Possible;
    match s
    case Listen(step) => HandedEachKeeps(x.w.seen, x.subscribers, x.clients, Ingested(step), k, tenant);
    case Subscribe(j, t) =>
    case EndReplay(j, history) => if j == k { ReplayedOwn(x.clients.streams[k], history, tenant); }
    case Leave(j) =>
      forall t ensures (k, t) in FanoutSite.Without(x.subscribers, j) <==> (k, t) in x.subscribers && k != j {
        WithoutIs(x.subscribers, j, (k, t));
      }
  }

  lemma {:induction false} RunKeeps(x: Site, steps: seq<SiteStep>, k: nat, tenant: string)
    requires PossibleSiteRun(x, steps) && Kept(x.subscribers, x.clients, k, tenant)
    requires forall s :: s in steps ==> For(s, k, tenant)
    ensures Kept(SiteRun(x, steps).subscribers, SiteRun(x, steps).clients, k, tenant)
    decreases |steps|
  {
    hide Kept, PossibleHere, For, After;
    if steps != [] {
      assert steps[0] in steps && forall s :: s in steps[1..] ==> s in steps;
      AfterKeeps(x, steps[0], k, tenant);
      RunKeeps(After(x, steps[0]), steps[1..], k, tenant);
    }
  }

  /** In every run of the site, whoever else connects and whatever is ingested: all that a client's stream ever puts out
      is an event of the tenant it subscribed for. */
  lemma NoClientSeesAnotherTenant(steps: seq<SiteStep>, k: nat, tenant: string, e: Event)
    requires PossibleSiteRun(EMPTY_SITE, steps)
    requires forall s :: s in steps ==>
               && (s.Subscribe? && s.k == k ==> s.tenant == tenant)
               && (s.EndReplay? && s.k == k && s.history.Some? ==> forall h :: h in s.history.value ==> h.tenant == tenant)
    requires k in SiteRun(EMPTY_SITE, steps).clients.streams
    requires Sent(e) in SiteRun(EMPTY_SITE, steps).clients.streams[k].out
    ensures e.tenant == tenant
  {
    assert forall s :: s in steps ==> For(s, k, tenant);
    RunKeeps(EMPTY_SITE, steps, k, tenant);
  }
}
