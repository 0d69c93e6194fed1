/** Matching tools/list responses to their requests (jsonrpc.rs, proxy.rs).

    Two tasks share one queue: the agent side records the id of a request and then forwards it, the
    server side takes the id of a response and analyses the response if it was there. */
module Correlation {
  import opened Wrappers
  import opened Text
  import opened Json

  const MAX_PENDING := 1_024
  const MAX_CORRELATION_ID_BYTES := 256

  // ----- the correlation key ----------------------------------------------------------------------------------

  datatype Message = Message(jsonrpc: Option<string>, id: Option<Value>, rpcMethod: Option<string>,
                             result: Option<Value>, error: Option<Value>)
  {
    predicate IsResponse() {
      rpcMethod.None? && (result.Some? || error.Some?)
    }

    predicate IsJsonRpc2() {
      jsonrpc == Some("2.0")
    }

    function IdKey(): Option<string> {
      match id
      case Some(Str(s)) => if ByteLen(s) <= MAX_CORRELATION_ID_BYTES then Some(Print(Str(s))) else None
      case Some(Num(token)) => Some(token)
      case _ => None
    }

    predicate IsListRequest() {
      IsJsonRpc2() && rpcMethod == Some("tools/list") && IdKey().Some?
    }

    /** A response that is looked up in the queue. */
    predicate IsCorrelated() {
      IsJsonRpc2() && IsResponse() && IdKey().Some?
    }
  }

  /** Two ids that are accepted have the same key only if they are the same id. */
  lemma IdKeyInjective(a: Message, b: Message)
    requires a.id.Some? && WellFormed(a.id.value) && b.id.Some? && WellFormed(b.id.value)
    requires a.IdKey().Some? && a.IdKey() == b.IdKey()
    ensures a.id == b.id
  {
    hide ByteLen;
    PrintInjective(a.id.value, b.id.value);
    hide NumberToken, Quote;
  }

  // ----- the queue ----------------------------------------------------------------------------------------------

  function Without(ids: seq<string>, key: string): seq<string> {
    if ids == [] then []
    else if ids[0] == key then ids[1..] else [ids[0]] + Without(ids[1..], key)
  }

  /** `track_pending`: an id tracked again moves to the back; past the cap the front goes. */
  function Track(ids: seq<string>, key: string): seq<string> {
    var longer := Without(ids, key) + [key];
    if |longer| > MAX_PENDING then longer[1..] else longer
  }

  predicate Distinct(ids: seq<string>) {
    forall i, j :: 0 <= i < j < |ids| ==> ids[i] != ids[j]
  }

  class PendingQueue {
    var ids: seq<string>

    constructor ()
      ensures ids == []
    {
      ids := [];
    }

    method Position(key: string) returns (i: nat)
      ensures i <= |ids|
      ensures i < |ids| ==> ids[i] == key
      ensures key !in ids[..i]
    {
      i := 0;
      while i < |ids| && ids[i] != key
        invariant i <= |ids| && key !in ids[..i]
      {
        i := i + 1;
      }
    }

    method TrackPending(key: string) returns (evicted: Option<string>)
      modifies this
      ensures ids == Track(old(ids), key)
      ensures evicted.Some? <==> |Without(old(ids), key)| >= MAX_PENDING
      ensures evicted.Some? ==> [evicted.value] + ids == Without(old(ids), key) + [key]
    {
      var i := Position(key);
      WithoutAt(ids, key, i);
      if i < |ids| {
        ids := ids[..i] + ids[i + 1..];
      }
      ids := ids + [key];
      if |ids| > MAX_PENDING {
        evicted := Some(ids[0]);
        ids := ids[1..];
      } else {
        evicted := None;
      }
    }

    method TakePending(key: string) returns (taken: bool)
      modifies this
      ensures taken == (key in old(ids))
      ensures ids == Without(old(ids), key)
    {
      var i := Position(key);
      WithoutAt(ids, key, i);
      if i == |ids| {
        return false;
      }
      ids := ids[..i] + ids[i + 1..];
      return true;
    }
  }

  lemma {:induction false} WithoutAt(ids: seq<string>, key: string, i: nat)
    requires i <= |ids| && key !in ids[..i] && (i < |ids| ==> ids[i] == key)
    ensures Without(ids, key) == if i < |ids| then ids[..i] + ids[i + 1..] else ids
  {
    if i > 0 {
      assert ids[0] in ids[..i];
      assert ids[1..][..i - 1] == ids[..i][1..];
      WithoutAt(ids[1..], key, i - 1);
    }
  }

  lemma {:induction false} WithoutFacts(ids: seq<string>, key: string)
    requires Distinct(ids)
    ensures Distinct(Without(ids, key))
    ensures forall x :: x in Without(ids, key) <==> x in ids && x != key
    ensures |Without(ids, key)| == if key in ids then |ids| - 1 else |ids|
  {
    if ids != [] {
      WithoutFacts(ids[1..], key);
      var rest := Without(ids[1..], key);
      assert forall x :: x in ids <==> x == ids[0] || x in ids[1..];
      assert ids[0] !in ids[1..];
      forall j | 0 <= j < |rest| ensures rest[j] != ids[0] {
        assert rest[j] in rest;
      }
    }
  }

  // ----- what stands behind an id ---------------------------------------------------------------------------------

  /** The ids that were tracked after this one and are still queued. */
  function Behind(ids: seq<string>, key: string): set<string> {
    if ids == [] then {}
    else if ids[0] == key then set x | x in ids[1..] else Behind(ids[1..], key)
  }

  lemma {:induction false} WithoutBehind(ids: seq<string>, key: string, other: string)
    requires Distinct(ids) && key in ids && other != key
    ensures key in Without(ids, other) && Behind(Without(ids, other), key) <= Behind(ids, key)
  {
    if ids[0] == key {
      WithoutFacts(ids[1..], other);
    } else {
      assert key in ids[1..];
      if ids[0] != other {
        WithoutBehind(ids[1..], key, other);
      }
    }
  }

  lemma {:induction false} AppendBehind(ids: seq<string>, key: string, last: string)
    requires key in ids
    ensures Behind(ids + [last], key) == Behind(ids, key) + {last}
  {
    assert (ids + [last])[1..] == ids[1..] + [last];
    if ids[0] != key {
      AppendBehind(ids[1..], key, last);
    }
  }

  lemma {:induction false} BehindLast(ids: seq<string>, key: string)
    requires key !in ids
    ensures Behind(ids + [key], key) == {}
  {
    if ids != [] {
      assert (ids + [key])[1..] == ids[1..] + [key];
      BehindLast(ids[1..], key);
    }
  }

  lemma {:induction false} ElementsOf(ids: seq<string>)
    requires Distinct(ids)
    ensures |set x | x in ids| == |ids|
  {
    if ids != [] {
      ElementsOf(ids[1..]);
      assert (set x | x in ids) == {ids[0]} + set x | x in ids[1..];
      assert ids[0] !in ids[1..];
    }
  }

  predicate QueueOk(ids: seq<string>) {
    Distinct(ids) && |ids| <= MAX_PENDING
  }

  /** Tracking keeps the queue duplicate-free and within its cap. Another id stays, unless as many
      ids as the cap have been tracked after it. */
  lemma TrackKeeps(ids: seq<string>, key: string, other: string)
    requires QueueOk(ids) && key in ids && other != key
    requires |Behind(ids, key) + {other}| < MAX_PENDING
    ensures key in Track(ids, other) && Behind(Track(ids, other), key) <= Behind(ids, key) + {other}
  {
    WithoutFacts(ids, other);
    WithoutBehind(ids, key, other);
    var longer := Without(ids, other) + [other];
    AppendBehind(Without(ids, other), key, other);
    assert longer[|longer| - 1] == other;
    hide Without;
    Smaller(Behind(longer, key), Behind(ids, key) + {other});
    if |longer| > MAX_PENDING {
      FrontHasAllBehind(longer, key);
      assert longer[0] != key;
      assert key in longer[1..];
    }
  }

  lemma FrontHasAllBehind(ids: seq<string>, key: string)
    requires Distinct(ids) && key in ids
    ensures ids[0] == key ==> |Behind(ids, key)| == |ids| - 1
    ensures ids[0] != key ==> Behind(ids, key) == Behind(ids[1..], key)
  {
    if ids[0] == key {
      ElementsOf(ids[1..]);
    }
  }

  lemma Smaller(a: set<string>, b: set<string>)
    requires a <= b
    ensures |a| <= |b|
  {
    assert b == a + (b - a);
  }

  lemma TrackQueueOk(ids: seq<string>, key: string)
    requires QueueOk(ids)
    ensures QueueOk(Track(ids, key)) && key in Track(ids, key) && Behind(Track(ids, key), key) == {}
  {
    WithoutFacts(ids, key);
    BehindLast(Without(ids, key), key);
    var longer := Without(ids, key) + [key];
    assert longer[|longer| - 1] == key;
    if |longer| > MAX_PENDING {
      assert longer[1..][|longer| - 2] == key;
    }
  }

  // ----- the two tasks ------------------------------------------------------------------------------------------------

  datatype Step =
    | AgentRead(request: Message)
    | AgentForward
    | ServerRead(response: Message)

  /** The shared queue, the line the agent side has recorded but not yet passed on, the lines the server
      has been sent, and every key recorded so far. */
  datatype World = World(ids: seq<string>, held: Option<Message>, sent: seq<Message>, recorded: set<string>)

  predicate Enabled(w: World, s: Step) {
    match s
    case AgentRead(_) => w.held.None?
    case AgentForward => w.held.Some?
    case ServerRead(_) => true
  }

  function Next(w: World, s: Step): World {
    match s
    case AgentRead(m) =>
      if m.IsListRequest()
      then World(Track(w.ids, m.IdKey().value), Some(m), w.sent, w.recorded + {m.IdKey().value})
      else w.(held := Some(m))
    case AgentForward => if w.held.Some? then w.(held := None, sent := w.sent + [w.held.value]) else w
    case ServerRead(m) => if m.IsCorrelated() then w.(ids := Without(w.ids, m.IdKey().value)) else w
  }

  /** Whether this line from the server goes through the tools/list analysis. */
  predicate Analysed(w: World, m: Message) {
    m.IsCorrelated() && m.IdKey().value in w.ids
  }

  function Run(w: World, steps: seq<Step>): World
    decreases |steps|
  {
    if steps == [] then w else Run(Next(w, steps[0]), steps[1..])
  }

  predicate Runnable(w: World, steps: seq<Step>)
    decreases |steps|
  {
    steps == [] || (Enabled(w, steps[0]) && Runnable(Next(w, steps[0]), steps[1..]))
  }

  const IDLE := World([], None, [], {})

  predicate Inv(w: World) {
    && QueueOk(w.ids)
    && (w.held.Some? && w.held.value.IsListRequest() ==> w.held.value.IdKey().value in w.recorded)
    && (forall m :: m in w.sent && m.IsListRequest() ==> m.IdKey().value in w.recorded)
  }

  lemma NextKeeps(w: World, s: Step)
    requires Inv(w)
    ensures Inv(Next(w, s))
  {
    hide Message.IdKey, Distinct;
    match s {
      case AgentRead(m) => if m.IsListRequest() { TrackQueueOk(w.ids, m.IdKey().value); }
      case ServerRead(m) =>
        if m.IsCorrelated() { WithoutKeeps(w.ids, m.IdKey().value); }
      case AgentForward =>
    }
    hide Message.IsListRequest, Track, Without;
  }

  lemma WithoutKeeps(ids: seq<string>, key: string)
    requires QueueOk(ids)
    ensures QueueOk(Without(ids, key))
  {
    WithoutFacts(ids, key);
  }

  /** In every interleaving the queue has no duplicate and stays within its cap, and the server is never
      sent a tools/list request whose id has not been recorded first. */
  lemma {:induction false} RunKeeps(w: World, steps: seq<Step>)
    requires Inv(w)
    ensures Inv(Run(w, steps))
    decreases |steps|
  {
    hide Inv, Next;
    if steps != [] {
      NextKeeps(w, steps[0]);
      RunKeeps(Next(w, steps[0]), steps[1..]);
    }
  }

  /** The other keys recorded in a run of steps. */
  function Others(steps: seq<Step>, key: string): set<string> {
    if steps == [] then {}
    else
      var s := steps[0];
      (if s.AgentRead? && s.request.IsListRequest() && s.request.IdKey().value != key then {s.request.IdKey().value} else {})
      + Others(steps[1..], key)
  }

  lemma OthersSplit(steps: seq<Step>, key: string)
    requires steps != []
    ensures Others(steps, key) == Others([steps[0]], key) + Others(steps[1..], key)
  {
    hide Message.IdKey, Message.IsListRequest;
    assert [steps[0]][1..] == [] && Others([], key) == {};
  }

  predicate NoResponse(steps: seq<Step>, key: string) {
    forall s :: s in steps ==> !(s.ServerRead? && s.response.IsCorrelated() && s.response.IdKey().value == key)
  }

  lemma StepKeepsKey(w: World, s: Step, key: string, seen: set<string>)
    requires QueueOk(w.ids) && key in w.ids && Behind(w.ids, key) <= seen
    requires NoResponse([s], key) && |seen + Others([s], key)| < MAX_PENDING
    ensures key in Next(w, s).ids && Behind(Next(w, s).ids, key) <= seen + Others([s], key)
  {
    hide Message.IdKey;
    assert [s][1..] == [] && Others([], key) == {} && s in [s];
    match s {
      case AgentRead(m) =>
        if m.IsListRequest() {
          var k := m.IdKey().value;
          if k == key {
            TrackQueueOk(w.ids, key);
          } else {
            Smaller(Behind(w.ids, key) + {k}, seen + {k});
            TrackKeeps(w.ids, key, k);
          }
        }
      case ServerRead(m) =>
        if m.IsCorrelated() { WithoutBehind(w.ids, key, m.IdKey().value); }
      case AgentForward =>
    }
  }

  lemma {:induction false} KeyStays(w: World, steps: seq<Step>, key: string, seen: set<string>)
    requires Inv(w) && key in w.ids && Behind(w.ids, key) <= seen
    requires NoResponse(steps, key) && |seen + Others(steps, key)| < MAX_PENDING
    ensures key in Run(w, steps).ids
    decreases |steps|
  {
    hide Next, Behind, Message.IdKey, QueueOk;
    if steps != [] {
      var s := steps[0];
      var now := Others([s], key);
      assert s in steps;
      OthersSplit(steps, key);
      Smaller(seen + now, seen + Others(steps, key));
      assert QueueOk(w.ids);
      StepKeepsKey(w, s, key, seen);
      NextKeeps(w, s);
      assert seen + now + Others(steps[1..], key) == seen + Others(steps, key);
      assert forall x :: x in steps[1..] ==> x in steps;
      hide Others, Inv;
      KeyStays(Next(w, s), steps[1..], key, seen + now);
    }
  }

  /** An id that can be matched: any number, or a string of at most 256 bytes. */
  predicate Matchable(id: Option<Value>) {
    id.Some? && (id.value.Num? || (id.value.Str? && ByteLen(id.value.s) <= 256))
  }

  predicate Asks(m: Message, id: Option<Value>) {
    m.jsonrpc == Some("2.0") && m.rpcMethod == Some("tools/list") && m.id == id
  }

  predicate Answers(m: Message, id: Option<Value>) {
    m.jsonrpc == Some("2.0") && m.rpcMethod == None && (m.result.Some? || m.error.Some?) && m.id == id
  }

  predicate Unanswered(steps: seq<Step>, id: Option<Value>) {
    forall s :: s in steps ==> !(s.ServerRead? && Answers(s.response, id))
  }

  /** Ids come from JSON text. */
  predicate Parsed(m: Message) {
    m.id.Some? ==> WellFormed(m.id.value)
  }

  predicate AllParsed(steps: seq<Step>) {
    forall s :: s in steps ==> (s.ServerRead? ==> Parsed(s.response)) && (s.AgentRead? ==> Parsed(s.request))
  }

  lemma HasKey(m: Message)
    ensures m.IdKey().Some? <==> Matchable(m.id)
  {
    hide ByteLen;
  }

  lemma KeyOfId(m: Message, n: Message)
    requires m.id == n.id
    ensures m.IdKey() == n.IdKey()
  {
    hide ByteLen;
  }

  /** Within parsed messages a key stands for an id. */
  lemma KeyIsId(m: Message, n: Message)
    requires Parsed(m) && Parsed(n) && Matchable(m.id)
    ensures m.IdKey() == n.IdKey() <==> m.id == n.id
  {
    HasKey(m);
    HasKey(n);
    if m.id == n.id {
      KeyOfId(m, n);
    } else if n.IdKey() == m.IdKey() {
      IdKeyInjective(m, n);
    }
  }

  /** The other ids that were asked for in a run of steps. */
  function OtherIds(steps: seq<Step>, id: Option<Value>): set<Value> {
    set s | s in steps && s.AgentRead? && Matchable(s.request.id) && s.request.id != id && Asks(s.request, s.request.id) :: s.request.id.value
  }

  lemma {:induction false} OthersAreIds(steps: seq<Step>, request: Message)
    requires AllParsed(steps) && Parsed(request) && Matchable(request.id)
    ensures |Others(steps, request.IdKey().value)| <= |OtherIds(steps, request.id)|
  {
    HasKey(request);
    hide Message.IdKey, ByteLen, Matchable, Parsed, AllParsed, Others, OtherIds;
    if steps == [] {
      OthersOfNothing(request.IdKey().value);
    } else {
      var ids := KeysOf(steps, request);
      Fewer(ids, OtherIds(steps, request.id), Others(steps, request.IdKey().value));
    }
  }

  /** Which id brought each key. */
  lemma {:induction false} KeysOf(steps: seq<Step>, request: Message) returns (ids: map<string, Value>)
    requires AllParsed(steps) && Parsed(request) && request.IdKey().Some?
    ensures ids.Keys == Others(steps, request.IdKey().value)
    ensures forall k :: k in ids ==> ids[k] in OtherIds(steps, request.id) && WithId(ids[k]).IdKey() == Some(k)
  {
    if steps == [] {
      ids := map[];
    } else {
      var s := steps[0];
      var rest := KeysOf(steps[1..], request);
      OthersOf(steps, request);
      forall x ensures x in OtherIds(steps[1..], request.id) ==> x in OtherIds(steps, request.id) {
      }
      hide Message.IdKey, ByteLen, Others, Parsed;
      if s.AgentRead? && s.request.IsListRequest() && s.request.IdKey() != request.IdKey() {
        HasKey(s.request);
        KeyOfId(s.request, WithId(s.request.id.value));
        if s.request.id == request.id { KeyOfId(s.request, request); }
        assert s in steps;
        ids := rest[s.request.IdKey().value := s.request.id.value];
      } else {
        ids := rest;
      }
    }
  }

  function WithId(id: Value): Message {
    Message(None, Some(id), None, None, None)
  }

  lemma OthersOf(steps: seq<Step>, request: Message)
    requires steps != [] && request.IdKey().Some?
    ensures var s := steps[0];
            Others(steps, request.IdKey().value)
            == Others(steps[1..], request.IdKey().value)
               + if s.AgentRead? && s.request.IsListRequest() && s.request.IdKey() != request.IdKey()
                 then {s.request.IdKey().value} else {}
  {
    hide Message.IdKey;
  }

  lemma OthersOfNothing(key: string)
    ensures Others([], key) == {} && |Others([], key)| == 0
  {
  }

  /** Different keys come from different ids. */
  lemma {:induction false} Fewer(ids: map<string, Value>, all: set<Value>, keys: set<string>)
    requires ids.Keys == keys && forall k :: k in ids ==> ids[k] in all && WithId(ids[k]).IdKey() == Some(k)
    ensures |keys| <= |all|
    decreases |keys|
  {
    hide Message.IdKey;
    if keys != {} {
      var k :| k in keys;
      assert forall l :: l in ids && l != k ==> ids[l] != ids[k];
      Fewer(ids - {k}, all - {ids[k]}, keys - {k});
    }
  }

  /** The first response since a tools/list request with that id was read is analysed, however the two tasks interleave,
      unless as many other ids as the cap were asked for in between. */
  lemma FirstResponseIsAnalysed(before: seq<Step>, request: Message, between: seq<Step>, response: Message)
    requires Runnable(IDLE, before + [AgentRead(request)] + between + [ServerRead(response)])
    requires AllParsed(between) && Parsed(request) && Matchable(request.id)
    requires Asks(request, request.id) && Answers(response, request.id) && Unanswered(between, request.id)
    requires |OtherIds(between, request.id)| < 1024
    ensures Analysed(Run(IDLE, before + [AgentRead(request)] + between), response)
  {
    HasKey(request);
    KeyOfId(response, request);
    OthersAreIds(between, request);
    var key := request.IdKey().value;
    assert NoResponse(between, key) by {
      forall s | s in between && s.ServerRead? && s.response.IsCorrelated() ensures s.response.IdKey().value != key {
        KeyIsId(request, s.response);
      }
    }
    hide Message.IdKey, Others, OtherIds, Matchable, NoResponse, Analysed, Unanswered, Parsed, AllParsed;
    KeyIsAnalysed(before, request, between, response);
  }

  lemma KeyIsAnalysed(before: seq<Step>, request: Message, between: seq<Step>, response: Message)
    requires Runnable(IDLE, before + [AgentRead(request)] + between + [ServerRead(response)])
    requires request.IsListRequest() && response.IsCorrelated() && response.IdKey() == request.IdKey()
    requires NoResponse(between, request.IdKey().value)
    requires |Others(between, request.IdKey().value)| < MAX_PENDING
    ensures Analysed(Run(IDLE, before + [AgentRead(request)] + between), response)
  {
    var key := request.IdKey().value;
    var w := Run(IDLE, before);
    RunKeeps(IDLE, before);
    RunAppend(IDLE, before, [AgentRead(request)]);
    RunAppend(IDLE, before + [AgentRead(request)], between);
    var w1 := Run(w, [AgentRead(request)]);
    RunOne(w, AgentRead(request));
    TrackQueueOk(w.ids, key);
    NextKeeps(w, AgentRead(request));
    hide Message.IdKey, Others, Behind, Track, Run;
    assert {} + Others(between, key) == Others(between, key);
    KeyStays(w1, between, key, {});
  }

  /** Where a queued key came from: a request, with no response of that key since. */
  lemma {:induction false} QueuedWasRead(steps: seq<Step>, key: string) returns (k: nat)
    requires key in Run(IDLE, steps).ids
    ensures k < |steps| && steps[k].AgentRead? && steps[k].request.IsListRequest() && steps[k].request.IdKey() == Some(key)
    ensures NoResponse(steps[k + 1..], key)
    decreases |steps|
  {
    hide Message.IdKey, Message.IsListRequest, Message.IsCorrelated, Track, Next;
    if steps == [] {
      NothingQueued(key);
    } else {
      var init, s := steps[..|steps| - 1], steps[|steps| - 1];
      var w := Run(IDLE, init);
      assert steps == init + [s];
      RunAppend(IDLE, init, [s]);
      RunOne(w, s);
      RunKeeps(IDLE, init);
      assert QueueOk(w.ids);
      QueuedStep(w, s, key);
      if s.AgentRead? && s.request.IsListRequest() && s.request.IdKey() == Some(key) {
        k := |steps| - 1;
        assert steps[k + 1..] == [];
      } else {
        k := QueuedWasRead(init, key);
        assert steps[k + 1..] == init[k + 1..] + [s];
      }
    }
  }

  lemma NothingQueued(key: string)
    ensures key !in Run(IDLE, []).ids
  {
  }

  lemma QueuedStep(w: World, s: Step, key: string)
    requires QueueOk(w.ids) && key in Next(w, s).ids
    ensures (s.AgentRead? && s.request.IsListRequest() && s.request.IdKey() == Some(key)) || key in w.ids
    ensures !(s.ServerRead? && s.response.IsCorrelated() && s.response.IdKey().value == key)
  {
    hide Message.IdKey;
    match s {
      case AgentRead(m) => if m.IsListRequest() { WithoutFacts(w.ids, m.IdKey().value); }
      case ServerRead(m) => if m.IsCorrelated() { WithoutFacts(w.ids, m.IdKey().value); }
      case AgentForward =>
    }
  }

  /** And only then: what is analysed answers a tools/list request of its very id that the agent side had read, and that
      no response before it answered. */
  lemma OnlyRequestedIsAnalysed(steps: seq<Step>, response: Message) returns (k: nat)
    requires AllParsed(steps) && Parsed(response) && Analysed(Run(IDLE, steps), response)
    ensures Matchable(response.id) && Answers(response, response.id)
    ensures k < |steps| && steps[k].AgentRead? && Asks(steps[k].request, response.id)
    ensures Unanswered(steps[k + 1..], response.id)
  {
    HasKey(response);
    k := QueuedWasRead(steps, response.IdKey().value);
    KeyIsId(response, steps[k].request);
    forall s | s in steps[k + 1..] && s.ServerRead? ensures !Answers(s.response, response.id) {
      if Answers(s.response, response.id) { KeyOfId(s.response, response); }
    }
    hide Message.IdKey, Run;
  }

  lemma RunOne(w: World, s: Step)
    ensures Run(w, [s]) == Next(w, s)
  {
    hide Next;
    assert [s][1..] == [];
    assert Run(Next(w, s), []) == Next(w, s);
  }

  lemma {:induction false} RunAppend(w: World, a: seq<Step>, b: seq<Step>)
    ensures Run(w, a + b) == Run(Run(w, a), b)
    decreases |a|
  {
    hide Next;
    if a == [] {
      assert a + b == b;
    } else {
      assert (a + b)[1..] == a[1..] + b;
      RunAppend(Next(w, a[0]), a[1..], b);
    }
  }
}
