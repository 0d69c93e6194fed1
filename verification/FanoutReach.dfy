/** From a notification to the streams: what a successful lookup hands to the subscribers, and what they put out. */
module FanoutReach {
  import opened Wrappers
  import opened Recent
  import opened Fanout
  import opened FanoutRuns
  import opened LiveListener

  lemma {:induction false} NoticedOnly(seen: seq<string>, events: seq<Event>, id: string)
    requires id in NoticedAll(seen, events)
    ensures id in seen || id in Ids(events)
    decreases |events|
  {
    if events != [] {
      var init, e := events[..|events| - 1], events[|events| - 1];
      assert events == init + [e];
      IdsInPieces(init, [e]);
      if id !in NoticedAll(seen, init) {
        assert id in NoticedAll(seen, init) + [e.id];
        assert [e][1..] == [] && Ids([e]) == [e.id];
      } else {
        NoticedOnly(seen, init, id);
      }
    }
  }

  lemma HandedTo(to: seq<nat>, k: nat, e: Event)
    requires k in to
    ensures (k, e) in To(to, e)
  {
    var i :| 0 <= i < |to| && to[i] == k;
    assert To(to, e)[i] == (k, e);
  }

  /** Every event a lookup finds, unless it was seen before, is handed to every subscriber of its tenant. */
  lemma {:induction false} FoundIsHanded(seen: seq<string>, subscribers: seq<(nat, string)>, found: seq<Event>, e: Event, k: nat)
    requires e in found && e.id !in seen && Distinct(Ids(found)) && (k, e.tenant) in subscribers
    ensures (k, e) in HandedAll(seen, subscribers, found)
    decreases |found|
  {
    var init, last := found[..|found| - 1], found[|found| - 1];
    assert found == init + [last];
    IdsInPieces(init, [last]);
    assert Ids(init) == Ids(found)[..|init|];
    if e == last && e !in init {
      LastIsNew(init, last);
      if e.id in NoticedAll(seen, init) {
        NoticedOnly(seen, init, e.id);
      }
      RecipientsAre(subscribers, e.tenant, k);
      HandedTo(Recipients(subscribers, e.tenant), k, e);
    } else {
      FoundIsHanded(seen, subscribers, init, e, k);
    }
  }

  lemma LastIsNew(init: seq<Event>, last: Event)
    requires Distinct(Ids(init + [last]))
    ensures last.id !in Ids(init)
  {
    IdsInPieces(init, [last]);
    assert [last][1..] == [] && Ids([last]) == [last.id];
    var all := Ids(init + [last]);
    assert forall i :: 0 <= i < |init| ==> Ids(init)[i] == all[i] != all[|init|];
  }

  /** The events handed to one subscriber, in order. */
  function For(handed: seq<(nat, Event)>, k: nat): seq<Event> {
    if handed == [] then [] else (if handed[0].0 == k then [handed[0].1] else []) + For(handed[1..], k)
  }

  lemma {:induction false} ForHas(handed: seq<(nat, Event)>, k: nat, e: Event)
    requires (k, e) in handed
    ensures e in For(handed, k)
  {
    if handed[0] != (k, e) {
      ForHas(handed[1..], k, e);
    }
  }

  lemma {:induction false} IdsHave(events: seq<Event>, e: Event)
    requires e in events
    ensures e.id in Ids(events)
  {
    if events[0] != e {
      IdsHave(events[1..], e);
    }
  }

  ghost predicate PutOut(out: seq<Chunk>, id: string) {
    exists f: Event :: f.id == id && Sent(f) in out
  }

  lemma {:induction false} ChunksPutOut(events: seq<Event>, id: string)
    requires id in Ids(events)
    ensures PutOut(Chunks(events), id)
  {
    if events[0].id == id {
      assert Sent(events[0]) in Chunks(events);
    } else {
      ChunksPutOut(events[1..], id);
      var f: Event :| f.id == id && Sent(f) in Chunks(events[1..]);
      assert Sent(f) in Chunks(events);
    }
  }

  /** An open stream past its replay puts out every event it is handed, unless it did so within its window. */
  lemma HandedIsPutOut(s: Stream, events: seq<Event>, e: Event)
    requires !s.closed && !s.replaying && e in events && e.id !in s.order
    ensures PutOut(SendAllLive(s, events).out, e.id)
  {
    hide Marked;
    LiveAfterReplay(s, events);
    SendAllSendsFresh(s, events);
    IdsHave(events, e);
    NothingIsSkippedUnsent(s.order, Ids(events), WINDOW, e.id);
    FreshEventsAre(s.order, events);
    ChunksPutOut(FreshEvents(s.order, events), e.id);
    var f: Event :| f.id == e.id && Sent(f) in Chunks(FreshEvents(s.order, events));
    assert Sent(f) in SendAllLive(s, events).out;
  }

  /** The whole way. Events come from one successful lookup: each that the broker had not seen is put out by every
      open stream of its tenant that is past its replay and has not put it out within its window. */
  lemma FoundIsPutOut(seen: seq<string>, subscribers: seq<(nat, string)>, found: seq<Event>, e: Event, k: nat, s: Stream)
    requires e in found && Distinct(Ids(found)) && e.id !in seen
    requires (k, e.tenant) in subscribers && !s.closed && !s.replaying && e.id !in s.order
    ensures PutOut(SendAllLive(s, For(HandedAll(seen, subscribers, found), k)).out, e.id)
  {
    FoundIsHanded(seen, subscribers, found, e, k);
    var handed := HandedAll(seen, subscribers, found);
    ForHas(handed, k, e);
    HandedIsPutOut(s, For(handed, k), e);
  }

  /** And a stream that is still replaying puts it out when its replay ends, if its buffer sufficed. */
  lemma BufferedIsPutOut(during: seq<Event>, history: Option<seq<Event>>, later: seq<Event>, e: Event)
    requires (e in during || e in later) && !Life(during, history, later).closed
    ensures PutOut(Life(during, history, later).out, e.id)
  {
    LifeOfAStream(during, history, later);
    var handed := Told(history) + during + later;
    assert e in handed;
    IdsHave(handed, e);
    NoRepeatNoGap(handed);
    ChunksPutOut(FreshEvents([], handed), e.id);
    hide Life, Told, FreshEvents, Chunks;
    var f: Event :| f.id == e.id && Sent(f) in Chunks(FreshEvents([], handed));
    assert Sent(f) in Life(during, history, later).out;
  }
}
