/** The two guarantees of a tools/list exchange, stated of the very list the agent is sent. */
module ExchangeFacts {
  import opened Wrappers
  import opened Json
  import opened Baseline
  import opened Enforcement
  import opened Vouching

  /** The places of an advertised list that are not withheld, in order. */
  function Places(n: nat, blocked: set<nat>, from: nat): seq<nat>
    requires from <= n
    decreases n - from
  {
    if from == n then [] else (if from in blocked then [] else [from]) + Places(n, blocked, from + 1)
  }

  ghost predicate Rising(places: seq<nat>) {
    forall k, l :: 0 <= k < l < |places| ==> places[k] < places[l]
  }

  lemma {:induction false} PlacesAre(n: nat, blocked: set<nat>, from: nat)
    requires from <= n
    ensures forall i :: i in Places(n, blocked, from) <==> from <= i < n && i !in blocked
    decreases n - from
  {
    if from < n {
      PlacesAre(n, blocked, from + 1);
    }
  }

  lemma {:induction false} PlacesRise(n: nat, blocked: set<nat>, from: nat)
    requires from <= n
    ensures Rising(Places(n, blocked, from))
    decreases n - from
  {
    if from < n {
      PlacesRise(n, blocked, from + 1);
      PlacesAre(n, blocked, from + 1);
      var rest := Places(n, blocked, from + 1);
      forall l | 0 <= l < |rest| ensures from < rest[l] {
        assert rest[l] in rest;
      }
      RisesFirst(from, rest);
      assert [] + rest == rest;
    }
  }

  lemma RisesFirst(first: nat, rest: seq<nat>)
    requires Rising(rest) && forall l :: 0 <= l < |rest| ==> first < rest[l]
    ensures Rising([first] + rest)
  {
    var all := [first] + rest;
    forall k, l | 0 <= k < l < |all| ensures all[k] < all[l] {
      assert all[l] == rest[l - 1];
      assert k > 0 ==> all[k] == rest[k - 1];
    }
  }

  lemma {:induction false} UnblockedAtPlaces(tools: seq<Value>, blocked: set<nat>, from: nat)
    requires from <= |tools|
    ensures var places := Places(|tools|, blocked, from);
            && |Unblocked(tools, blocked, from)| == |places|
            && (forall k :: 0 <= k < |places| ==> places[k] < |tools| && Unblocked(tools, blocked, from)[k] == tools[places[k]])
    decreases |tools| - from
  {
    if from < |tools| {
      UnblockedAtPlaces(tools, blocked, from + 1);
    }
  }

  lemma PlacesFacts(tools: seq<Value>, blocked: set<nat>, from: nat)
    requires from <= |tools|
    ensures var places := Places(|tools|, blocked, from);
            && Rising(places)
            && (forall i :: i in places <==> from <= i < |tools| && i !in blocked)
            && |Unblocked(tools, blocked, from)| == |places|
            && (forall k :: 0 <= k < |places| ==> places[k] < |tools| && Unblocked(tools, blocked, from)[k] == tools[places[k]])
  {
    hide Places, Unblocked;
    PlacesAre(|tools|, blocked, from);
    PlacesRise(|tools|, blocked, from);
    UnblockedAtPlaces(tools, blocked, from);
  }

  lemma {:induction false} SetMemberFinds(members: seq<Member>, key: string, v: Value, other: string)
    ensures Find(SetMember(members, key, v), key) == Some(v)
    ensures other != key ==> Find(SetMember(members, key, v), other) == Find(members, other)
  {
    if members != [] && members[0].key != key {
      SetMemberFinds(members[1..], key, v, other);
    }
  }

  /** A rebuilt response carries the new tools and leaves every other member alone. */
  lemma RebuildReplacesTools(result: Value, tools: seq<Value>, other: string)
    requires result.Obj? && other != "tools"
    ensures Rebuild(result, tools).Some?
    ensures Get(Rebuild(result, tools).value, "tools") == Some(Arr(tools))
    ensures Get(Rebuild(result, tools).value, other) == Get(result, other)
  {
    SetMemberFinds(result.members, "tools", Arr(tools), other);
  }

  /** What the agent's list is made of: for each place that is not withheld, in order, the delivered
      tool; then the boundary's own tools. */
  ghost predicate Lists(p: Policy, tools: seq<Value>, places: seq<nat>, s: Trust, list: seq<Value>) {
    && Rising(places)
    && |list| == |places| + |p.descriptors|
    && list[|places|..] == p.descriptors
    && (forall k :: 0 <= k < |places| ==>
          places[k] < |tools| && Delivered(p, s, tools[places[k]], list[k]))
    && (forall k, l :: 0 <= k < l < |places| ==> RawName(list[k]) != RawName(list[l]))
  }

  /** The ledger against that list, both ways round. */
  ghost predicate TellsTheTruth(p: Policy, tools: seq<Value>, places: seq<nat>, s: Trust, list: seq<Value>, events: seq<Event>)
    requires |places| <= |list|
    requires forall k :: 0 <= k < |places| ==> places[k] < |tools|
  {
    && (forall e :: e in events ==> e.index < |tools| && e.action != NotEnforced)
    && (forall e :: e in events && e.action.Withholds() ==> e.index !in places)
    && (forall e :: e in events && e.action.Restores() ==>
          exists k :: 0 <= k < |places| && places[k] == e.index
                      && NameOf(tools[e.index]) in s.tools && list[k] == s.tools[NameOf(tools[e.index])].tool)
    && (forall i :: 0 <= i < |tools| && i !in places ==>
          NameOf(tools[i]) in p.secret || exists e :: e in events && e.index == i && e.action.Withholds())
    && (forall k :: 0 <= k < |places| && list[k] != tools[places[k]] ==>
          exists e :: e in events && e.index == places[k] && e.action == Rewritten)
  }

  function PlacesOf(tools: seq<Value>, g: Progress): seq<nat> {
    Places(|tools|, g.blocked, 0)
  }

  function FinalList(p: Policy, tools: seq<Value>, g: Progress): seq<Value>
    requires |Out(tools, g)| == |tools|
  {
    Unblocked(Out(tools, g), g.blocked, 0) + p.descriptors
  }

  lemma FinalListLists(p: Policy, tools: seq<Value>, s: Trust, fails: set<nat>, now: nat)
    requires Sound(s) && !Analyze(p, tools, |tools|, s, fails, now).failed
    ensures var g := Analyze(p, tools, |tools|, s, fails, now);
            Lists(p, tools, PlacesOf(tools, g), g.store, FinalList(p, tools, g))
  {
    hide Sound, Analyze, Delivered, RawName, Defects, Unblocked, Places, TrimmedName;
    var g := Analyze(p, tools, |tools|, s, fails, now);
    var places, list := PlacesOf(tools, g), FinalList(p, tools, g);
    AnalyzeDelivers(p, tools, |tools|, s, fails, now);
    PlacesFacts(Out(tools, g), g.blocked, 0);
    forall k | 0 <= k < |places|
      ensures Delivered(p, g.store, tools[places[k]], list[k]) && RawName(list[k]) == RawName(tools[places[k]])
    {
      assert places[k] in places;
      DeliveredName(p, g.store, tools[places[k]], list[k]);
    }
    forall k, l | 0 <= k < l < |places| ensures RawName(list[k]) != RawName(list[l]) {
      assert places[k] in places && places[l] in places;
      KeptIsSound(p, tools, s, fails, now, places[k]);
      KeptIsSound(p, tools, s, fails, now, places[l]);
      SoundNamesDistinct(tools, places[k], places[l]);
    }
  }

  lemma DeliveredName(p: Policy, s: Trust, original: Value, out: Value)
    requires Delivered(p, s, original, out)
    ensures RawName(out) == RawName(original)
  {
  }

  lemma KeptIsSound(p: Policy, tools: seq<Value>, s: Trust, fails: set<nat>, now: nat, i: nat)
    requires i < |tools| && !Analyze(p, tools, |tools|, s, fails, now).failed
    requires i !in Analyze(p, tools, |tools|, s, fails, now).blocked
    ensures !Defects(tools)[i].Withholds()
  {
    hide Analyze, DefectOf;
    if Defects(tools)[i].Withholds() {
      FlawedBlocked(p, tools, |tools|, s, fails, now, i);
    }
  }

  lemma FinalListTrue(p: Policy, tools: seq<Value>, s: Trust, fails: set<nat>, now: nat)
    requires Sound(s) && !Analyze(p, tools, |tools|, s, fails, now).failed
    requires var g := Analyze(p, tools, |tools|, s, fails, now);
             Lists(p, tools, PlacesOf(tools, g), g.store, FinalList(p, tools, g))
    ensures var g := Analyze(p, tools, |tools|, s, fails, now);
            TellsTheTruth(p, tools, PlacesOf(tools, g), g.store, FinalList(p, tools, g), g.deferred)
  {
    hide Sound, Analyze, Delivered, RawName, NameOf, Unblocked, Places;
    var g := Analyze(p, tools, |tools|, s, fails, now);
    AnalyzeReportsTruly(p, tools, |tools|, s, fails, now);
    AnalyzeDelivers(p, tools, |tools|, s, fails, now);
    PlacesFacts(Out(tools, g), g.blocked, 0);
    var places := PlacesOf(tools, g);
    forall e | e in g.deferred && e.action.Restores()
      ensures exists k :: 0 <= k < |places| && places[k] == e.index
                      && NameOf(tools[e.index]) in g.store.tools
                      && FinalList(p, tools, g)[k] == g.store.tools[NameOf(tools[e.index])].tool
    {
      assert EventTrue(tools, g, e);
      assert e.index in places;
    }
    forall i | 0 <= i < |tools| && i !in places
      ensures NameOf(tools[i]) in p.secret || exists e :: e in g.deferred && e.index == i && e.action.Withholds()
    {
      assert PlaceReported(p, tools, g, i) && i in g.blocked;
    }
    forall k | 0 <= k < |places| && FinalList(p, tools, g)[k] != tools[places[k]]
      ensures exists e :: e in g.deferred && e.index == places[k] && e.action == Rewritten
    {
      assert PlaceReported(p, tools, g, places[k]) && FinalList(p, tools, g)[k] == Out(tools, g)[places[k]];
    }
    forall e | e in g.deferred && e.action.Withholds() ensures e.index !in places {
      assert EventTrue(tools, g, e);
    }
  }

  /** When nothing is enforced, nothing was claimed, so no event needs correcting. */
  lemma NothingClaimed(tools: seq<Value>, g: Progress, e: Event)
    requires |tools| == |Out(tools, g)| && EventTrue(tools, g, e)
    requires g.clean.None? && g.blocked == {}
    ensures !e.claimsEnforcement
  {
    hide NameOf;
  }

  /** The whole exchange. Whatever was analysed, the agent receives exactly the delivered tools and the
      boundary's own, no name twice among the former; in enforce mode each of them carries the
      fingerprint trusted for its name; no revoked or shadowed name is among
      them; and the ledger is true of that list and leaves no withheld or changed place out. */
  lemma AnalysedExchange(p: Policy, result: Value, s: Trust, disk: Option<DiskText>, fails: set<nat>,
                         writeOk: bool, spelling: nat, now: nat)
    returns (places: seq<nat>, list: seq<Value>)
    requires Sound(s)
    requires AnalyzeToolsList(p, Some(result), s, disk, fails, writeOk, spelling, now).Analyzed?
    ensures var x := AnalyzeToolsList(p, Some(result), s, disk, fails, writeOk, spelling, now);
            && Get(Received(result, x), "tools") == Some(Arr(list))
            && Lists(p, AdvertisedTools(Some(result)).value, places, x.store, list)
            && TellsTheTruth(p, AdvertisedTools(Some(result)).value, places, x.store, list, x.events)
  {
    var tools := AdvertisedTools(Some(result)).value;
    var s' := Reload(s, disk);
    ReloadSound(s, disk);
    var g := Analyze(p, tools, |tools|, s', fails, now);
    places, list := PlacesOf(tools, g), FinalList(p, tools, g);
    hide Reload, Analyze, Sound;
    FinalListLists(p, tools, s', fails, now);
    FinalListTrue(p, tools, s', fails, now);
    AnalyzeReportsTruly(p, tools, |tools|, s', fails, now);
    FinishSends(p, result, tools, g, disk, writeOk, spelling);
    hide Finish, PlacesOf, FinalList, Received;
    var x := AnalyzeToolsList(p, Some(result), s, disk, fails, writeOk, spelling, now);
    assert x.store.tools == g.store.tools && x.store.revoked == g.store.revoked;
    ListsCarry(p, tools, places, g.store, x.store, list, x.events);
  }

  lemma ListsCarry(p: Policy, tools: seq<Value>, places: seq<nat>, s: Trust, t: Trust, list: seq<Value>, events: seq<Event>)
    requires Lists(p, tools, places, s, list) && TellsTheTruth(p, tools, places, s, list, events)
    requires s.tools == t.tools && s.revoked == t.revoked
    ensures Lists(p, tools, places, t, list) && TellsTheTruth(p, tools, places, t, list, events)
  {
    hide RawName, NameOf, Fingerprint, Description;
  }

  lemma FinishSends(p: Policy, result: Value, tools: seq<Value>, g: Progress, disk: Option<DiskText>, writeOk: bool, spelling: nat)
    requires AdvertisedTools(Some(result)) == Some(tools) && !g.failed
    requires |Out(tools, g)| == |tools| && LedgerTrue(p, tools, |tools|, g)
    ensures var x := Finish(p, result, tools, g, disk, writeOk, spelling);
            && x.Analyzed? && x.events == g.deferred
            && x.store.tools == g.store.tools && x.store.revoked == g.store.revoked
            && Get(Received(result, x), "tools") == Some(Arr(FinalList(p, tools, g)))
  {
    hide NameOf, Unblocked, Rebuild, LedgerTrue;
    var list := FinalList(p, tools, g);
    RebuildReplacesTools(result, list, "");
    EmitsUnchanged(p, tools, g);
    if g.clean.None? && g.blocked == {} {
      NothingUnblocked(tools, 0);
      assert list == tools + p.descriptors;
      assert p.descriptors == [] ==> list == tools;
    }
  }

  lemma EmitsUnchanged(p: Policy, tools: seq<Value>, g: Progress)
    requires |Out(tools, g)| == |tools| && LedgerTrue(p, tools, |tools|, g)
    ensures Emit(g.deferred, true) == g.deferred
    ensures g.clean.None? && g.blocked == {} ==> Emit(g.deferred, false) == g.deferred
  {
    hide NameOf, EventTrue;
    if g.clean.None? && g.blocked == {} {
      forall i | 0 <= i < |g.deferred| ensures !g.deferred[i].claimsEnforcement {
        NothingClaimed(tools, g, g.deferred[i]);
      }
    }
  }

  lemma {:induction false} NothingUnblocked(tools: seq<Value>, from: nat)
    requires from <= |tools|
    ensures Unblocked(tools, {}, from) == tools[from..]
    decreases |tools| - from
  {
    if from < |tools| { NothingUnblocked(tools, from + 1); }
  }

  /** On an error path the server's own line goes out, and no event claims otherwise. */
  lemma FailedExchangeClaimsNothing(p: Policy, result: Option<Value>, s: Trust, disk: Option<DiskText>, fails: set<nat>,
                                    writeOk: bool, spelling: nat, now: nat)
    requires Sound(s)
    requires AnalyzeToolsList(p, result, s, disk, fails, writeOk, spelling, now).Failed?
    ensures var x := AnalyzeToolsList(p, result, s, disk, fails, writeOk, spelling, now);
            && (result.Some? ==> Received(result.value, x) == result.value)
            && forall e :: e in x.events ==> !e.action.Withholds() && !e.action.Restores()
  {
    var tools := AdvertisedTools(result).value;
    ReloadSound(s, disk);
    var g := Analyze(p, tools, |tools|, Reload(s, disk), fails, now);
    AnalyzeReportsTruly(p, tools, |tools|, Reload(s, disk), fails, now);
    hide Reload, Analyze, Sound, NameOf;
    var corrected := Emit(g.deferred, false);
    forall e | e in corrected ensures !e.action.Withholds() && !e.action.Restores() {
      var i :| 0 <= i < |corrected| && corrected[i] == e;
      assert EventTrue(tools, g, g.deferred[i]);
    }
  }
}
