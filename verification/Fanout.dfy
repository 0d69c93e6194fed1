/** The event broker and the event streams it feeds (event-ingest.ts, sse-event-stream.ts). */
module Fanout {
  import opened Wrappers
  import opened Recent

  datatype Event = Event(id: string, tenant: string, body: string)

  // ----- the broker ---------------------------------------------------------------------------------------------

  const MAX_RECENT: nat := 4096

  /** An event without an identifier is never recorded and always passed on. */
  function Noticed(order: seq<string>, id: string): seq<string> {
    if id == "" then order else Marked(order, id, MAX_RECENT)
  }

  /** The subscribers of one tenant, in the order they subscribed. */
  function Recipients(subscribers: seq<(nat, string)>, tenant: string): seq<nat> {
    if subscribers == [] then []
    else (if subscribers[0].1 == tenant then [subscribers[0].0] else []) + Recipients(subscribers[1..], tenant)
  }

  lemma {:induction false} RecipientsAdd(subscribers: seq<(nat, string)>, s: (nat, string), tenant: string)
    ensures Recipients(subscribers + [s], tenant) == Recipients(subscribers, tenant) + if s.1 == tenant then [s.0] else []
  {
    if subscribers == [] {
      assert [] + [s] == [s] && [s][1..] == [];
    } else {
      assert (subscribers + [s])[1..] == subscribers[1..] + [s];
      RecipientsAdd(subscribers[1..], s, tenant);
    }
  }

  /** Those handed an event are exactly the subscribers of its tenant. */
  lemma {:induction false} RecipientsAre(subscribers: seq<(nat, string)>, tenant: string, k: nat)
    ensures k in Recipients(subscribers, tenant) <==> (k, tenant) in subscribers
  {
    if subscribers != [] {
      RecipientsAre(subscribers[1..], tenant, k);
      assert subscribers == [subscribers[0]] + subscribers[1..];
    }
  }

  class Broker {
    var seenIds: set<string>
    var seenOrder: seq<string>
    var subscribers: seq<(nat, string)>

    ghost predicate Valid()
      reads this
    {
      && |seenOrder| <= MAX_RECENT && Distinct(seenOrder) && "" !in seenOrder
      && (forall id :: id in seenIds <==> id in seenOrder)
    }

    constructor ()
      ensures Valid() && seenOrder == [] && subscribers == []
    {
      seenIds, seenOrder, subscribers := {}, [], [];
    }

    predicate HasSeen(id: string)
      requires Valid()
      reads this
      ensures HasSeen(id) <==> id in seenOrder
    {
      id in seenIds
    }

    method MarkSeen(id: string) returns (seen: bool)
      requires Valid()
      modifies this`seenIds, this`seenOrder
      ensures Valid()
      ensures seen == (id in old(seenOrder))
      ensures seenOrder == Noticed(old(seenOrder), id)
    {
      if id == "" {
        return false;
      }
      if id in seenIds {
        return true;
      }
      seenIds := seenIds + {id};
      seenOrder := seenOrder + [id];
      if |seenOrder| > MAX_RECENT {
        var oldest := seenOrder[0];
        assert forall i :: 1 <= i < |seenOrder| ==> seenOrder[i] != oldest;
        seenOrder := seenOrder[1..];
        seenIds := seenIds - {oldest};
        assert forall x :: x in seenOrder <==> x in [oldest] + seenOrder && x != oldest;
        assert old(seenOrder) + [id] == [oldest] + seenOrder;
      }
      return false;
    }

    /** Every subscriber of the tenant, and no other, is handed an event that was not seen recently. */
    method Ingest(event: Event) returns (handed: seq<nat>)
      requires Valid()
      modifies this`seenIds, this`seenOrder
      ensures Valid()
      ensures seenOrder == Noticed(old(seenOrder), event.id)
      ensures handed == if event.id in old(seenOrder) then [] else Recipients(subscribers, event.tenant)
    {
      handed := [];
      var seen := MarkSeen(event.id);
      if seen {
        return;
      }
      var i := 0;
      while i < |subscribers|
        modifies {}
        invariant i <= |subscribers| && handed == Recipients(subscribers[..i], event.tenant)
      {
        RecipientsAdd(subscribers[..i], subscribers[i], event.tenant);
        assert subscribers[..i + 1] == subscribers[..i] + [subscribers[i]];
        if subscribers[i].1 == event.tenant {
          handed := handed + [subscribers[i].0];
        }
        i := i + 1;
      }
      assert subscribers[..i] == subscribers;
    }
  }

  // ----- one stream ---------------------------------------------------------------------------------------------

  const WINDOW: nat := 2048
  const MAX_BUFFERED: nat := 2048

  datatype Chunk = Sent(event: Event) | BufferExceeded | HistoryUnavailable

  datatype Stream = Stream(order: seq<string>, buffered: seq<Event>, replaying: bool, closed: bool, out: seq<Chunk>)

  const OPENED := Stream([], [], true, false, [])

  function Enqueued(s: Stream, c: Chunk): Stream {
    if s.closed then s else s.(out := s.out + [c])
  }

  function Send(s: Stream, e: Event): Stream {
    if e.id in s.order then s else Enqueued(s.(order := Marked(s.order, e.id, WINDOW)), Sent(e))
  }

  function SendAll(s: Stream, events: seq<Event>): Stream {
    if events == [] then s else Send(SendAll(s, events[..|events| - 1]), events[|events| - 1])
  }

  function SendLive(s: Stream, e: Event): Stream {
    if !s.replaying then Send(s, e)
    else if |s.buffered| >= MAX_BUFFERED then Enqueued(s, BufferExceeded).(closed := true)
    else s.(buffered := s.buffered + [e])
  }

  function SendAllLive(s: Stream, events: seq<Event>): Stream {
    if events == [] then s else SendLive(SendAllLive(s, events[..|events| - 1]), events[|events| - 1])
  }

  function Reversed(events: seq<Event>): (r: seq<Event>)
    ensures |r| == |events|
    ensures forall i :: 0 <= i < |r| ==> r[i] == events[|events| - 1 - i]
  {
    seq(|events|, i requires 0 <= i < |events| => events[|events| - 1 - i])
  }

  /** History has come, newest first, or could not be loaded; then the buffered events go out. */
  function Replayed(s: Stream, history: Option<seq<Event>>): Stream {
    var told := if history.Some? then SendAll(s, Reversed(history.value)) else Enqueued(s, HistoryUnavailable);
    SendAll(told.(replaying := false), s.buffered).(buffered := [])
  }

  class EventStream {
    var sentIds: set<string>
    var sentOrder: seq<string>
    var bufferedLive: seq<Event>
    var replaying: bool
    var closed: bool
    var output: seq<Chunk>

    ghost predicate Valid()
      reads this
    {
      |sentOrder| <= WINDOW && Distinct(sentOrder) && forall id :: id in sentIds <==> id in sentOrder
    }

    function Value(): Stream
      reads this
    {
      Stream(sentOrder, bufferedLive, replaying, closed, output)
    }

    constructor ()
      ensures Valid() && Value() == OPENED
    {
      sentIds, sentOrder, bufferedLive, replaying, closed, output := {}, [], [], true, false, [];
    }

    method SafeEnqueue(c: Chunk)
      modifies this`output
      ensures Value() == Enqueued(old(Value()), c)
    {
      if !closed {
        output := output + [c];
      }
    }

    method Cleanup()
      modifies this`closed
      ensures Value() == old(Value()).(closed := true)
    {
      closed := true;
    }

    method SendOne(e: Event)
      requires Valid()
      modifies this`sentIds, this`sentOrder, this`output
      ensures Valid() && Value() == Send(old(Value()), e)
    {
      if e.id in sentIds {
        return;
      }
      sentIds := sentIds + {e.id};
      sentOrder := sentOrder + [e.id];
      if |sentOrder| > WINDOW {
        var oldest := sentOrder[0];
        assert forall i :: 1 <= i < |sentOrder| ==> sentOrder[i] != oldest;
        sentOrder := sentOrder[1..];
        sentIds := sentIds - {oldest};
        assert forall x :: x in sentOrder <==> x in [oldest] + sentOrder && x != oldest;
        assert old(sentOrder) + [e.id] == [oldest] + sentOrder;
      }
      SafeEnqueue(Sent(e));
    }

    method Live(e: Event)
      requires Valid()
      modifies this
      ensures Valid() && Value() == SendLive(old(Value()), e)
    {
      if replaying {
        if |bufferedLive| >= MAX_BUFFERED {
          SafeEnqueue(BufferExceeded);
          Cleanup();
          return;
        }
        bufferedLive := bufferedLive + [e];
      } else {
        SendOne(e);
      }
    }

    method SendEach(events: seq<Event>)
      requires Valid()
      modifies this`sentIds, this`sentOrder, this`output
      ensures Valid() && Value() == SendAll(old(Value()), events)
    {
      var i := 0;
      while i < |events|
        invariant i <= |events| && Valid() && Value() == SendAll(old(Value()), events[..i])
      {
        assert events[..i + 1][..i] == events[..i];
        SendOne(events[i]);
        i := i + 1;
      }
      assert events[..i] == events;
    }

    method Replay(history: Option<seq<Event>>)
      requires Valid()
      modifies this
      ensures Valid() && Value() == Replayed(old(Value()), history)
    {
      if history.Some? {
        SendEach(Reversed(history.value));
      } else {
        SafeEnqueue(HistoryUnavailable);
      }
      replaying := false;
      SendEach(bufferedLive);
      bufferedLive := [];
    }
  }
}
