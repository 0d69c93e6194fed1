/** What the broker passes on of all that it is given, from whichever path it comes. */
module FanoutBroker {
  import opened Recent
  import opened Fanout
  import opened LiveListener

  /** The events that are passed on. */
  function Passed(seen: seq<string>, events: seq<Event>): seq<Event> {
    if events == [] then []
    else
      var init, e := events[..|events| - 1], events[|events| - 1];
      Passed(seen, init) + if e.id in NoticedAll(seen, init) then [] else [e]
  }

  /** Each to every subscriber of its tenant. */
  function HandedOut(subscribers: seq<(nat, string)>, events: seq<Event>): seq<(nat, Event)> {
    if events == [] then []
    else
      HandedOut(subscribers, events[..|events| - 1])
      + To(Recipients(subscribers, events[|events| - 1].tenant), events[|events| - 1])
  }

  lemma {:induction false} PassedIsHandedOut(seen: seq<string>, subscribers: seq<(nat, string)>, events: seq<Event>)
    ensures HandedAll(seen, subscribers, events) == HandedOut(subscribers, Passed(seen, events))
    decreases |events|
  {
    hide NoticedAll, Recipients, To;
    if events != [] {
      var init, e := events[..|events| - 1], events[|events| - 1];
      PassedIsHandedOut(seen, subscribers, init);
      var before := Passed(seen, init);
      if e.id in NoticedAll(seen, init) {
        assert before + [] == before;
      } else {
        assert (before + [e])[..|before + [e]| - 1] == before;
      }
    }
  }

  /** The identifiers there are, in order. */
  function Named(events: seq<Event>): seq<string> {
    if events == [] then []
    else Named(events[..|events| - 1]) + if events[|events| - 1].id == "" then [] else [events[|events| - 1].id]
  }

  lemma MarkedOne(order: seq<string>, ids: seq<string>, id: string)
    ensures MarkedAll(order, ids + [id], MAX_RECENT) == Marked(MarkedAll(order, ids, MAX_RECENT), id, MAX_RECENT)
    ensures Fresh(order, ids + [id], MAX_RECENT)
            == Fresh(order, ids, MAX_RECENT) + if id in MarkedAll(order, ids, MAX_RECENT) then [] else [id]
  {
    MarkedInPieces(order, ids, [id], MAX_RECENT);
    hide Marked;
    var seen := MarkedAll(order, ids, MAX_RECENT);
    assert [id][1..] == [];
    assert MarkedAll(Marked(seen, id, MAX_RECENT), [], MAX_RECENT) == Marked(seen, id, MAX_RECENT);
    assert Fresh(Marked(seen, id, MAX_RECENT), [], MAX_RECENT) == [];
  }

  lemma {:induction false} PassedIsFresh(seen: seq<string>, events: seq<Event>)
    requires "" !in seen
    ensures NoticedAll(seen, events) == MarkedAll(seen, Named(events), MAX_RECENT)
    ensures Named(Passed(seen, events)) == Fresh(seen, Named(events), MAX_RECENT)
    ensures "" !in NoticedAll(seen, events)
    decreases |events|
  {
    hide MarkedAll, Fresh;
    if events == [] {
      NothingMarked(seen);
    } else {
      var init, e := events[..|events| - 1], events[|events| - 1];
      PassedIsFresh(seen, init);
      var before := Passed(seen, init);
      if e.id == "" {
        assert Named(init) + [] == Named(init);
        assert (before + [e])[..|before + [e]| - 1] == before;
        assert Named(before) + [] == Named(before);
      } else {
        MarkedOne(seen, Named(init), e.id);
        if e.id !in NoticedAll(seen, init) {
          assert (before + [e])[..|before + [e]| - 1] == before;
        } else {
          assert before + [] == before;
          assert Named(before) + [] == Named(before);
        }
      }
    }
  }

  lemma NothingMarked(seen: seq<string>)
    ensures MarkedAll(seen, [], MAX_RECENT) == seen && Fresh(seen, [], MAX_RECENT) == []
  {
  }

  lemma {:induction false} NamedHas(events: seq<Event>, id: string)
    requires id != ""
    ensures id in Named(events) <==> exists e :: e in events && e.id == id
  {
    if events != [] {
      var init, last := events[..|events| - 1], events[|events| - 1];
      NamedHas(init, id);
      assert events == init + [last];
    }
  }

  /** Over everything the broker is ever given, by the listener or directly: an identifier is passed on whenever it is
      given, and again only after more than 4,096 others; and an event without one is always passed on. */
  lemma PassedOnceAmongMany(events: seq<Event>, e: Event)
    requires e in events
    ensures Spaced(Named(Passed([], events)), 4_096)
    ensures e.id != "" ==> exists f :: f in Passed([], events) && f.id == e.id
    ensures e.id == "" ==> e in Passed([], events)
  {
    PassedIsFresh([], events);
    RecentIsTheLastSent([], Named(events), MAX_RECENT);
    var ids := Named(events);
    assert Last<string>([], MAX_RECENT) == [];
    assert [] + Fresh([], ids, MAX_RECENT) == Fresh([], ids, MAX_RECENT);
    if e.id != "" {
      NamedHas(events, e.id);
      NothingIsSkippedUnsent([], ids, MAX_RECENT, e.id);
      NamedHas(Passed([], events), e.id);
    } else {
      UnnamedPasses(events, e);
    }
  }

  lemma {:induction false} UnnamedPasses(events: seq<Event>, e: Event)
    requires e in events && e.id == ""
    ensures e in Passed([], events)
  {
    hide NoticedAll;
    var init, last := events[..|events| - 1], events[|events| - 1];
    assert events == init + [last];
    NeverSeenUnnamed(init);
    if e in init {
      UnnamedPasses(init, e);
    }
  }

  lemma NeverSeenUnnamed(events: seq<Event>)
    ensures "" !in NoticedAll([], events)
  {
    PassedIsFresh([], events);
  }
}
