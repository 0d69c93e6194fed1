/** What a client of an event stream receives over the stream's whole life. */
module FanoutRuns {
  import opened Wrappers
  import opened Recent
  import opened Fanout

  function Ids(events: seq<Event>): (r: seq<string>)
    ensures |r| == |events|
  {
    if events == [] then [] else [events[0].id] + Ids(events[1..])
  }

  function Chunks(events: seq<Event>): seq<Chunk> {
    if events == [] then [] else [Sent(events[0])] + Chunks(events[1..])
  }

  /** The events whose identifiers are new to the window when they come. */
  function FreshEvents(order: seq<string>, events: seq<Event>): seq<Event>
    decreases |events|
  {
    if events == [] then []
    else
      (if events[0].id in order then [] else [events[0]])
      + FreshEvents(Marked(order, events[0].id, WINDOW), events[1..])
  }

  lemma {:induction false} FreshEventsAre(order: seq<string>, events: seq<Event>)
    ensures Ids(FreshEvents(order, events)) == Fresh(order, Ids(events), WINDOW)
    ensures |FreshEvents(order, events)| <= |events|
    ensures |FreshEvents(order, events)| == |events| ==> FreshEvents(order, events) == events
    decreases |events|
  {
    if events != [] {
      var next := Marked(order, events[0].id, WINDOW);
      hide Marked;
      FreshEventsAre(next, events[1..]);
      var rest := FreshEvents(next, events[1..]);
      assert Ids(events)[1..] == Ids(events[1..]);
      assert ([events[0]] + rest)[1..] == rest && [] + rest == rest;
    }
  }

  lemma {:induction false} IdsInPieces(a: seq<Event>, b: seq<Event>)
    ensures Ids(a + b) == Ids(a) + Ids(b)
  {
    if a == [] {
      assert a + b == b;
    } else {
      assert (a + b)[1..] == a[1..] + b;
      IdsInPieces(a[1..], b);
    }
  }

  lemma {:induction false} ChunksInPieces(a: seq<Event>, b: seq<Event>)
    ensures Chunks(a + b) == Chunks(a) + Chunks(b)
  {
    if a == [] {
      assert a + b == b;
    } else {
      assert (a + b)[1..] == a[1..] + b;
      ChunksInPieces(a[1..], b);
    }
  }

  lemma {:induction false} FreshInPieces(order: seq<string>, a: seq<Event>, b: seq<Event>)
    ensures FreshEvents(order, a + b) == FreshEvents(order, a) + FreshEvents(MarkedAll(order, Ids(a), WINDOW), b)
    decreases |a|
  {
    if a == [] {
      assert a + b == b;
    } else {
      var next := Marked(order, a[0].id, WINDOW);
      hide Marked;
      assert (a + b)[1..] == a[1..] + b;
      assert Ids(a)[1..] == Ids(a[1..]);
      FreshInPieces(next, a[1..], b);
    }
  }

  // ----- sending ------------------------------------------------------------------------------------------------

  /** An open stream puts out exactly the events that are fresh, in order. */
  function AfterSending(s: Stream, events: seq<Event>): Stream {
    s.(order := MarkedAll(s.order, Ids(events), WINDOW), out := s.out + Chunks(FreshEvents(s.order, events)))
  }

  lemma {:induction false} SendAllSendsFresh(s: Stream, events: seq<Event>)
    requires !s.closed
    ensures SendAll(s, events) == AfterSending(s, events)
    decreases |events|
  {
    if events == [] {
      assert s.out + [] == s.out;
    } else {
      var init, e := events[..|events| - 1], events[|events| - 1];
      SendAllSendsFresh(s, init);
      assert events == init + [e];
      OneMore(s, init, e);
    }
  }

  lemma OneMore(s: Stream, init: seq<Event>, e: Event)
    requires !s.closed
    ensures Send(AfterSending(s, init), e) == AfterSending(s, init + [e])
  {
    var order := MarkedAll(s.order, Ids(init), WINDOW);
    IdsInPieces(init, [e]);
    MarkedInPieces(s.order, Ids(init), [e.id], WINDOW);
    FreshInPieces(s.order, init, [e]);
    Single(order, e);
    hide MarkedAll, FreshEvents, Marked, Ids;
    var last := FreshEvents(order, [e]);
    ChunksInPieces(FreshEvents(s.order, init), last);
    var sent := Chunks(FreshEvents(s.order, init));
    Single(order, e);
    assert s.out + (sent + Chunks(last)) == s.out + sent + Chunks(last);
    assert s.out + sent + [] == s.out + sent;
  }

  lemma Single(order: seq<string>, e: Event)
    ensures FreshEvents(order, [e]) == (if e.id in order then [] else [e])
    ensures MarkedAll(order, [e.id], WINDOW) == Marked(order, e.id, WINDOW)
    ensures e.id in order ==> Marked(order, e.id, WINDOW) == order
    ensures Ids([e]) == [e.id]
    ensures Chunks([e]) == [Sent(e)] && Chunks([]) == []
  {
    assert [e][1..] == [] && [e.id][1..] == [];
  }

  lemma {:induction false} LiveAfterReplay(s: Stream, events: seq<Event>)
    requires !s.replaying
    ensures SendAllLive(s, events) == SendAll(s, events) && !SendAll(s, events).replaying
    decreases |events|
  {
    if events != [] {
      LiveAfterReplay(s, events[..|events| - 1]);
    }
  }

  /** While history loads, live events are held; one more than the buffer takes ends the stream. */
  lemma {:induction false} LiveDuringReplay(events: seq<Event>)
    ensures SendAllLive(OPENED, events)
            == if |events| <= MAX_BUFFERED then OPENED.(buffered := events)
               else OPENED.(buffered := events[..MAX_BUFFERED], closed := true, out := [BufferExceeded])
    decreases |events|
  {
    if events != [] {
      var init := events[..|events| - 1];
      LiveDuringReplay(init);
      assert init + [events[|events| - 1]] == events;
      if |events| > MAX_BUFFERED {
        assert init[..MAX_BUFFERED] == events[..MAX_BUFFERED];
      }
    }
  }

  lemma {:induction false} ClosedStaysSilent(s: Stream, events: seq<Event>)
    requires s.closed
    ensures SendAll(s, events).out == s.out && SendAll(s, events).closed
    ensures SendAll(s, events).buffered == s.buffered && SendAll(s, events).replaying == s.replaying
    decreases |events|
  {
    hide Marked;
    if events != [] {
      ClosedStaysSilent(s, events[..|events| - 1]);
    }
  }

  // ----- a whole life -------------------------------------------------------------------------------------------

  /** Live events while history loads, the history or its failure, and live events afterwards. */
  function Life(during: seq<Event>, history: Option<seq<Event>>, later: seq<Event>): Stream {
    SendAllLive(Replayed(SendAllLive(OPENED, during), history), later)
  }

  function Told(history: Option<seq<Event>>): seq<Event> {
    if history.Some? then Reversed(history.value) else []
  }

  lemma ReplayOf(during: seq<Event>, history: Option<seq<Event>>)
    requires |during| <= MAX_BUFFERED
    ensures var opening := if history.Some? then [] else [HistoryUnavailable];
            Replayed(OPENED.(buffered := during), history)
            == AfterSending(Stream([], [], false, false, opening), Told(history) + during)
  {
    hide Reversed, MarkedAll, Fresh, FreshEvents, Ids, Marked, Chunks, SendAll, Send;
    assert [] + [HistoryUnavailable] == [HistoryUnavailable];
    var start := Stream([], during, true, false, if history.Some? then [] else [HistoryUnavailable]);
    SendNothing(start);
    SendAllSendsFresh(start, Told(history));
    var told := AfterSending(start, Told(history)).(replaying := false);
    SendAllSendsFresh(told, during);
    AfterBoth(start, Told(history), during);
  }

  lemma SendNothing(s: Stream)
    ensures SendAll(s, []) == s && AfterSending(s, []) == s
  {
    assert s.out + [] == s.out;
  }

  lemma AfterBoth(s: Stream, a: seq<Event>, b: seq<Event>)
    ensures var both := AfterSending(s, a + b);
            && AfterSending(AfterSending(s, a), b) == both
            && AfterSending(AfterSending(s, a).(replaying := false), b) == both.(replaying := false)
  {
    hide MarkedAll, Fresh, FreshEvents, Ids, Marked, Chunks;
    IdsInPieces(a, b);
    MarkedInPieces(s.order, Ids(a), Ids(b), WINDOW);
    FreshInPieces(s.order, a, b);
    ChunksInPieces(FreshEvents(s.order, a), FreshEvents(MarkedAll(s.order, Ids(a), WINDOW), b));
    var x, y := Chunks(FreshEvents(s.order, a)), Chunks(FreshEvents(MarkedAll(s.order, Ids(a), WINDOW), b));
    assert s.out + x + y == s.out + (x + y);
  }

  /** A stream stays open exactly while its buffer holds the events that came during replay. It then puts out,
      after a notice if history failed, every fresh event: history oldest first, then what was held, then the rest. */
  lemma LifeOfAStream(during: seq<Event>, history: Option<seq<Event>>, later: seq<Event>)
    ensures Life(during, history, later).closed <==> |during| > MAX_BUFFERED
    ensures |during| <= MAX_BUFFERED ==>
              Life(during, history, later).out
              == (if history.Some? then [] else [HistoryUnavailable])
                 + Chunks(FreshEvents([], Told(history) + during + later))
    ensures |during| > MAX_BUFFERED ==> Life(during, history, later).out == [BufferExceeded]
  {
    hide Reversed, MarkedAll, Fresh, FreshEvents, Ids, Marked, Chunks, SendAll, SendAllLive, Told;
    LiveDuringReplay(during);
    if |during| <= MAX_BUFFERED {
      ReplayOf(during, history);
      var start := Stream([], [], false, false, if history.Some? then [] else [HistoryUnavailable]);
      var replayed := AfterSending(start, Told(history) + during);
      LiveAfterReplay(replayed, later);
      SendAllSendsFresh(replayed, later);
      AfterBoth(start, Told(history) + during, later);
    } else {
      var s := SendAllLive(OPENED, during);
      if history.Some? {
        ClosedStaysSilent(s, Reversed(history.value));
      }
      var told := if history.Some? then SendAll(s, Reversed(history.value)) else Enqueued(s, HistoryUnavailable);
      ClosedStaysSilent(told.(replaying := false), s.buffered);
      var replayed := Replayed(s, history);
      LiveAfterReplay(replayed, later);
      ClosedStaysSilent(replayed, later);
    }
  }

  /** No identifier is put out twice within 2,048 events, and no event that was handed in is missing. */
  lemma NoRepeatNoGap(handed: seq<Event>)
    ensures var ids := Ids(FreshEvents([], handed));
            Spaced(ids, WINDOW) && forall id :: id in Ids(handed) ==> id in ids
  {
    hide Fresh, FreshEvents, Ids, MarkedAll;
    FreshEventsAre([], handed);
    var ids := Ids(handed);
    RecentIsTheLastSent([], ids, WINDOW);
    assert Last<string>([], WINDOW) == [] && [] + Fresh([], ids, WINDOW) == Fresh([], ids, WINDOW);
    forall id | id in ids ensures id in Fresh([], ids, WINDOW) {
      NothingIsSkippedUnsent([], ids, WINDOW, id);
    }
  }

  // ----- subscribe, then replay ---------------------------------------------------------------------------------

  lemma {:induction false} IdsOf(events: seq<Event>)
    ensures forall i :: 0 <= i < |events| ==> Ids(events)[i] == events[i].id
  {
    if events != [] {
      IdsOf(events[1..]);
    }
  }

  lemma IdsOfSlice(ledger: seq<Event>, lo: nat, hi: nat)
    requires lo <= hi <= |ledger|
    ensures Ids(ledger[lo..hi]) == Ids(ledger)[lo..hi]
  {
    IdsOf(ledger);
    IdsOf(ledger[lo..hi]);
  }

  /** A stretch told, part of it again, and the rest: the stretch and the rest are what is fresh. */
  lemma FreshOfStretches(told: seq<Event>, again: seq<Event>, rest: seq<Event>, from: nat)
    requires from <= |told| <= WINDOW && Ids(again) == Ids(told)[from..]
    requires Distinct(Ids(told) + Ids(rest)) && Distinct(Ids(told))
    ensures FreshEvents([], told + again + rest) == told + rest
  {
    hide FreshEvents, Fresh, Ids, MarkedAll, Distinct;
    FirstTold(told);
    ToldAgain(told, again, from);
    FreshInPieces([], told, again);
    FreshInPieces([], told + again, rest);
    IdsInPieces(told, again);
    MarkedInPieces([], Ids(told), Ids(again), WINDOW);
    assert Last(Ids(told), WINDOW) == Ids(told);
    DistinctAreAllSent(Ids(told), Ids(rest), WINDOW);
    FreshEventsAre(Ids(told), rest);
    assert told + [] == told;
  }

  lemma DistinctPart(s: seq<string>, lo: nat, hi: nat)
    requires Distinct(s) && lo <= hi <= |s|
    ensures Distinct(s[lo..hi])
  {
  }

  lemma Stretches<T>(s: seq<T>, lo: nat, mid: nat, hi: nat)
    requires lo <= mid <= hi <= |s|
    ensures s[mid..hi] == s[lo..hi][mid - lo..]
    ensures s[hi..|s|] == s[hi..]
    ensures s[lo..hi] + s[hi..] == s[lo..] == s[lo..|s|]
    ensures s[lo..hi] + s[mid..] == s[lo..hi] + s[mid..hi] + s[hi..]
  {
    assert s[mid..] == s[mid..hi] + s[hi..];
  }

  lemma StretchesOfLedger(ledger: seq<Event>, lo: nat, subscribed: nat, snapshot: nat)
    requires lo <= subscribed <= snapshot <= |ledger|
    ensures var told, again, rest := ledger[lo..snapshot], ledger[subscribed..snapshot], ledger[snapshot..];
            && Ids(again) == Ids(told)[subscribed - lo..]
            && Ids(told) == Ids(ledger)[lo..snapshot]
            && Ids(told) + Ids(rest) == Ids(ledger)[lo..|ledger|]
            && told + ledger[subscribed..] == told + again + rest
            && told + rest == ledger[lo..]
  {
    hide Ids;
    IdsOfSlice(ledger, lo, snapshot);
    IdsOfSlice(ledger, subscribed, snapshot);
    IdsOfSlice(ledger, snapshot, |ledger|);
    Stretches(ledger, lo, subscribed, snapshot);
    Stretches(Ids(ledger), lo, subscribed, snapshot);
  }

  /** Fresh among a told stretch of the ledger and everything after the subscription: the ledger from there on. */
  lemma FreshOfLedger(ledger: seq<Event>, lo: nat, subscribed: nat, snapshot: nat)
    requires lo <= subscribed <= snapshot <= |ledger| && snapshot - lo <= WINDOW && Distinct(Ids(ledger))
    ensures FreshEvents([], ledger[lo..snapshot] + ledger[subscribed..]) == ledger[lo..]
  {
    hide FreshEvents, Ids, Distinct;
    StretchesOfLedger(ledger, lo, subscribed, snapshot);
    DistinctPart(Ids(ledger), lo, snapshot);
    DistinctPart(Ids(ledger), lo, |ledger|);
    FreshOfStretches(ledger[lo..snapshot], ledger[subscribed..snapshot], ledger[snapshot..], subscribed - lo);
  }

  lemma FirstTold(told: seq<Event>)
    requires Distinct(Ids(told)) && |told| <= WINDOW
    ensures FreshEvents([], told) == told && MarkedAll([], Ids(told), WINDOW) == Ids(told)
  {
    hide FreshEvents, Fresh, Ids, MarkedAll;
    assert [] + Ids(told) == Ids(told) && Last<string>([], WINDOW) == [];
    DistinctAreAllSent([], Ids(told), WINDOW);
    FreshEventsAre([], told);
  }

  lemma ToldAgain(told: seq<Event>, again: seq<Event>, from: nat)
    requires from <= |told| && Ids(again) == Ids(told)[from..]
    ensures FreshEvents(Ids(told), again) == [] && MarkedAll(Ids(told), Ids(again), WINDOW) == Ids(told)
  {
    hide FreshEvents, Fresh, Ids, MarkedAll;
    KnownAreAllSkipped(Ids(told), Ids(again), WINDOW);
    FreshEventsAre(Ids(told), again);
    assert |FreshEvents(Ids(told), again)| == |Ids(FreshEvents(Ids(told), again))| == 0;
  }

  lemma LifeOfAnOpenStream(told: seq<Event>, during: seq<Event>, later: seq<Event>)
    requires |during| <= MAX_BUFFERED
    ensures Life(during, Some(Reversed(told)), later).out == Chunks(FreshEvents([], told + (during + later)))
  {
    assert Told(Some(Reversed(told))) == told;
    hide FreshEvents, Life, Reversed, Chunks, Told;
    LifeOfAStream(during, Some(Reversed(told)), later);
    assert told + during + later == told + (during + later);
    assert [] + Chunks(FreshEvents([], told + (during + later))) == Chunks(FreshEvents([], told + (during + later)));
  }

  /** With events published in ledger order, history read after the subscription and reaching back to it, an open
      stream puts out the ledger from its oldest told event on: in order, each event once, none missing. */
  lemma SubscribeThenReplayHasNoGap(ledger: seq<Event>, lo: nat, subscribed: nat, snapshot: nat,
                                    during: seq<Event>, later: seq<Event>)
    requires lo <= subscribed <= snapshot <= |ledger| && snapshot - lo <= WINDOW && Distinct(Ids(ledger))
    requires during + later == ledger[subscribed..] && |during| <= MAX_BUFFERED
    ensures Life(during, Some(Reversed(ledger[lo..snapshot])), later).out == Chunks(ledger[lo..])
  {
    hide FreshEvents, Life, Ids, Reversed, Chunks, Distinct;
    LifeOfAnOpenStream(ledger[lo..snapshot], during, later);
    FreshOfLedger(ledger, lo, subscribed, snapshot);
  }
}
