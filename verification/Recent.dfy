/** The bounded list of recent identifiers that the event broker and each event stream keep (event-ingest.ts,
    sse-event-stream.ts): first in, first out, and never refreshed by a repeat. */
module Recent {

  function Last<T>(s: seq<T>, n: nat): seq<T> {
    if |s| <= n then s else s[|s| - n..]
  }

  function Marked(order: seq<string>, id: string, cap: nat): seq<string> {
    if id in order then order else Last(order + [id], cap)
  }

  function MarkedAll(order: seq<string>, ids: seq<string>, cap: nat): seq<string>
    decreases |ids|
  {
    if ids == [] then order else MarkedAll(Marked(order, ids[0], cap), ids[1..], cap)
  }

  /** The identifiers that were new when they came, in order. */
  function Fresh(order: seq<string>, ids: seq<string>, cap: nat): seq<string>
    decreases |ids|
  {
    if ids == [] then []
    else (if ids[0] in order then [] else [ids[0]]) + Fresh(Marked(order, ids[0], cap), ids[1..], cap)
  }

  ghost predicate Distinct(s: seq<string>) {
    forall i, j :: 0 <= i < j < |s| ==> s[i] != s[j]
  }

  /** A repeat comes only after more than `cap` others. */
  ghost predicate Spaced(s: seq<string>, cap: nat) {
    forall i, j :: 0 <= i < j < |s| && s[i] == s[j] ==> j - i > cap
  }

  lemma SpacedMore(sent: seq<string>, id: string, cap: nat)
    requires Spaced(sent, cap) && id !in Last(sent, cap)
    ensures Spaced(sent + [id], cap)
  {
    forall i | 0 <= i < |sent| && |sent| - i <= cap ensures sent[i] in Last(sent, cap) {
      assert sent[i] == Last(sent, cap)[i - (|sent| - |Last(sent, cap)|)];
    }
  }

  lemma LastMore<T>(s: seq<T>, x: T, n: nat)
    ensures Last(Last(s, n) + [x], n) == Last(s + [x], n)
  {
  }

  /** Over any run the list holds the last identifiers sent, and repeats are spaced by more than the bound. */
  lemma {:induction false} RecentIsTheLastSent(sent: seq<string>, ids: seq<string>, cap: nat)
    requires Spaced(sent, cap)
    ensures var all := sent + Fresh(Last(sent, cap), ids, cap);
            MarkedAll(Last(sent, cap), ids, cap) == Last(all, cap) && Spaced(all, cap)
    decreases |ids|
  {
    hide Last, Spaced;
    if ids == [] {
      assert sent + [] == sent;
    } else {
      var id := ids[0];
      if id in Last(sent, cap) {
        assert Fresh(Last(sent, cap), ids, cap) == Fresh(Last(sent, cap), ids[1..], cap);
        RecentIsTheLastSent(sent, ids[1..], cap);
      } else {
        SpacedMore(sent, id, cap);
        LastMore(sent, id, cap);
        RecentIsTheLastSent(sent + [id], ids[1..], cap);
        var rest := Fresh(Last(sent + [id], cap), ids[1..], cap);
        assert sent + [id] + rest == sent + ([id] + rest);
      }
    }
  }

  /** Every identifier handed in is sent or was on the list already. */
  lemma {:induction false} NothingIsSkippedUnsent(order: seq<string>, ids: seq<string>, cap: nat, id: string)
    requires id in ids
    ensures id in order || id in Fresh(order, ids, cap)
    decreases |ids|
  {
    if id != ids[0] {
      NothingIsSkippedUnsent(Marked(order, ids[0], cap), ids[1..], cap, id);
      if id in Marked(order, ids[0], cap) {
        assert id in order + [ids[0]];
      }
    }
  }

  lemma {:induction false} MarkedInPieces(order: seq<string>, a: seq<string>, b: seq<string>, cap: nat)
    ensures MarkedAll(order, a + b, cap) == MarkedAll(MarkedAll(order, a, cap), b, cap)
    ensures Fresh(order, a + b, cap) == Fresh(order, a, cap) + Fresh(MarkedAll(order, a, cap), b, cap)
    decreases |a|
  {
    if a == [] {
      assert a + b == b;
    } else {
      assert (a + b)[1..] == a[1..] + b;
      MarkedInPieces(Marked(order, a[0], cap), a[1..], b, cap);
    }
  }

  lemma NewIsNotListed(sent: seq<string>, ids: seq<string>, cap: nat)
    requires Distinct(sent + ids) && ids != []
    ensures ids[0] !in Last(sent, cap)
  {
    assert forall x :: x in Last(sent, cap) ==> x in sent;
    assert forall i :: 0 <= i < |sent| ==> sent[i] == (sent + ids)[i] != (sent + ids)[|sent|];
    assert ids[0] == (sent + ids)[|sent|];
  }

  /** Distinct identifiers that are not on the list are all sent. */
  lemma {:induction false} DistinctAreAllSent(sent: seq<string>, ids: seq<string>, cap: nat)
    requires Distinct(sent + ids)
    ensures Fresh(Last(sent, cap), ids, cap) == ids
    ensures MarkedAll(Last(sent, cap), ids, cap) == Last(sent + ids, cap)
    decreases |ids|
  {
    if ids == [] {
      assert sent + ids == sent;
    } else {
      NewIsNotListed(sent, ids, cap);
      hide Last, Distinct;
      LastMore(sent, ids[0], cap);
      assert sent + [ids[0]] + ids[1..] == sent + ids;
      assert [ids[0]] + ids[1..] == ids;
      DistinctAreAllSent(sent + [ids[0]], ids[1..], cap);
    }
  }

  /** Identifiers on the list are all skipped. */
  lemma {:induction false} KnownAreAllSkipped(order: seq<string>, ids: seq<string>, cap: nat)
    requires forall id :: id in ids ==> id in order
    ensures Fresh(order, ids, cap) == [] && MarkedAll(order, ids, cap) == order
    decreases |ids|
  {
    if ids != [] {
      KnownAreAllSkipped(order, ids[1..], cap);
    }
  }
}
