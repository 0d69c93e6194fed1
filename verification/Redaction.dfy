/** Redaction of matched spans (redaction.py): splicing from the right, and the left-to-right text it stands for. */
module Redaction {

  datatype Match = Match(start: nat, end: nat, tag: string)

  function Placeholder(m: Match): string {
    "[REDACTED:" + m.tag + "]"
  }

  /** A slice's bounds are clipped to the text. */
  function Upto(s: string, i: nat): string {
    if i <= |s| then s[..i] else s
  }

  function From(s: string, i: nat): string {
    if i <= |s| then s[i..] else ""
  }

  function Spliced(s: string, m: Match): string {
    Upto(s, m.start) + Placeholder(m) + From(s, m.end)
  }

  // ----- order --------------------------------------------------------------------------------------------------

  function Insert(m: Match, ms: seq<Match>): seq<Match> {
    if ms == [] || ms[0].start <= m.start then [m] + ms else [ms[0]] + Insert(m, ms[1..])
  }

  /** A stable sort, the latest start first. */
  function Ordered(ms: seq<Match>): seq<Match> {
    if ms == [] then [] else Insert(ms[0], Ordered(ms[1..]))
  }

  predicate StartBy(ms: seq<Match>, bound: nat) {
    forall m :: m in ms ==> m.start <= bound
  }

  predicate Descending(ms: seq<Match>) {
    ms == [] || (StartBy(ms[1..], ms[0].start) && Descending(ms[1..]))
  }

  lemma {:induction false} InsertAdds(m: Match, ms: seq<Match>)
    ensures multiset(Insert(m, ms)) == multiset{m} + multiset(ms)
    ensures forall x :: x in Insert(m, ms) <==> x == m || x in ms
  {
    if ms != [] && ms[0].start > m.start {
      InsertAdds(m, ms[1..]);
      assert ms == [ms[0]] + ms[1..];
    }
  }

  lemma {:induction false} InsertKeepsOrder(m: Match, ms: seq<Match>)
    requires Descending(ms)
    ensures Descending(Insert(m, ms))
  {
    if ms != [] && ms[0].start > m.start {
      InsertKeepsOrder(m, ms[1..]);
      InsertAdds(m, ms[1..]);
    } else if ms != [] {
      assert ms == [ms[0]] + ms[1..];
    }
  }

  lemma {:induction false} OrderedIs(ms: seq<Match>)
    ensures Descending(Ordered(ms)) && multiset(Ordered(ms)) == multiset(ms)
  {
    if ms != [] {
      OrderedIs(ms[1..]);
      InsertKeepsOrder(ms[0], Ordered(ms[1..]));
      InsertAdds(ms[0], Ordered(ms[1..]));
      assert ms == [ms[0]] + ms[1..];
    }
  }

  // ----- the loop -----------------------------------------------------------------------------------------------

  /** The matches that the loop applies: those that end before the last one applied begins. */
  function Applied(ordered: seq<Match>, lastStart: nat): seq<Match> {
    if ordered == [] then []
    else if ordered[0].end > lastStart then Applied(ordered[1..], lastStart)
    else [ordered[0]] + Applied(ordered[1..], ordered[0].start)
  }

  function SpliceAll(s: string, ms: seq<Match>): string
    decreases |ms|
  {
    if ms == [] then s else SpliceAll(Spliced(s, ms[0]), ms[1..])
  }

  method Redact(text: string, matches: seq<Match>) returns (out: string)
    ensures out == SpliceAll(text, Applied(Ordered(matches), |text| + 1))
  {
    if matches == [] {
      return text;
    }
    var ordered := Ordered(matches);
    out := text;
    var lastStart: nat := |text| + 1;
    var i := 0;
    while i < |ordered|
      invariant i <= |ordered|
      invariant SpliceAll(text, Applied(ordered, |text| + 1)) == SpliceAll(out, Applied(ordered[i..], lastStart))
    {
      var m := ordered[i];
      assert ordered[i..][0] == m && ordered[i..][1..] == ordered[i + 1..];
      if m.end <= lastStart {
        assert Applied(ordered[i..], lastStart) == [m] + Applied(ordered[i + 1..], m.start);
        out := Spliced(out, m);
        lastStart := m.start;
      }
      i := i + 1;
    }
  }

  // ----- the text it stands for ---------------------------------------------------------------------------------

  predicate InRange(text: string, ms: seq<Match>) {
    forall i :: 0 <= i < |ms| ==> ms[i].start <= ms[i].end <= |text|
  }

  /** The latest match first, and each ends before the one before it begins. */
  predicate Chain(ms: seq<Match>, end: nat) {
    ms != [] ==> ms[0].start <= ms[0].end <= end && Chain(ms[1..], ms[0].start)
  }

  /** The first `end` characters, read once from left to right, with each match replaced by its placeholder. */
  function Rebuilt(text: string, ms: seq<Match>, end: nat): string
    requires end <= |text| && Chain(ms, end)
  {
    if ms == [] then text[..end]
    else Rebuilt(text, ms[1..], ms[0].start) + ("[REDACTED:" + ms[0].tag + "]") + text[ms[0].end..end]
  }

  lemma PlaceholderIs(m: Match)
    ensures Placeholder(m) == "[REDACTED:" + m.tag + "]"
  {
  }

  /** The part still to be spliced is untouched, so no offset is ever stale. */
  lemma {:induction false} SplicingRebuilds(text: string, done: string, ms: seq<Match>, end: nat)
    requires end <= |text| && Chain(ms, end)
    ensures SpliceAll(text[..end] + done, ms) == Rebuilt(text, ms, end) + done
    decreases |ms|
  {
    if ms != [] { PlaceholderIs(ms[0]); }
    hide Placeholder, Spliced;
    if ms != [] {
      var m := ms[0];
      SpliceOne(text, done, m, end);
      var rest := Placeholder(m) + text[m.end..end] + done;
      SplicingRebuilds(text, rest, ms[1..], m.start);
      FourParts(Rebuilt(text, ms[1..], m.start), Placeholder(m), text[m.end..end], done);
    }
  }

  lemma FourParts(a: string, b: string, c: string, d: string)
    ensures a + (b + c + d) == a + b + c + d
  {
  }

  lemma SpliceOne(text: string, done: string, m: Match, end: nat)
    requires m.start <= m.end <= end <= |text|
    ensures Spliced(text[..end] + done, m) == text[..m.start] + (Placeholder(m) + text[m.end..end] + done)
  {
    hide Placeholder;
    var s := text[..end] + done;
    assert s[..m.start] == text[..m.start] && s[m.end..] == text[m.end..end] + done;
    FourParts(text[..m.start], Placeholder(m), text[m.end..end], done);
    FourParts(text[..m.start], Placeholder(m), s[m.end..], "");
    FourParts("", text[..m.start] + Placeholder(m), text[m.end..end], done);
  }

  lemma {:induction false} AppliedChains(ordered: seq<Match>, lastStart: nat, end: nat, text: string)
    requires InRange(text, ordered) && end <= |text| && (lastStart == end || (end == |text| && lastStart == end + 1))
    ensures Chain(Applied(ordered, lastStart), end)
  {
    if ordered != [] {
      var m := ordered[0];
      assert InRange(text, ordered[1..]);
      if m.end <= lastStart {
        AppliedChains(ordered[1..], m.start, m.start, text);
      } else {
        AppliedChains(ordered[1..], lastStart, end, text);
      }
    }
  }

  lemma InRangeOrdered(text: string, ms: seq<Match>)
    requires InRange(text, ms)
    ensures InRange(text, Ordered(ms))
  {
    OrderedIs(ms);
    forall i | 0 <= i < |Ordered(ms)| ensures Ordered(ms)[i].start <= Ordered(ms)[i].end <= |text| {
      assert Ordered(ms)[i] in multiset(ms);
    }
  }

  /** For matches inside the text, splicing gives the left-to-right text of the matches that are applied. */
  lemma RedactionIsTheRebuiltText(text: string, ms: seq<Match>)
    requires InRange(text, ms)
    ensures Chain(Applied(Ordered(ms), |text| + 1), |text|)
    ensures SpliceAll(text, Applied(Ordered(ms), |text| + 1)) == Rebuilt(text, Applied(Ordered(ms), |text| + 1), |text|)
  {
    InRangeOrdered(text, ms);
    AppliedChains(Ordered(ms), |text| + 1, |text|, text);
    SplicingRebuilds(text, "", Applied(Ordered(ms), |text| + 1), |text|);
    assert text[..|text|] + "" == text;
  }

  /** Two texts that differ only inside the spans replaced in them. */
  ghost predicate SameOutside(a: string, b: string, ms: seq<Match>, end: nat)
    requires end <= |a| && end <= |b|
  {
    forall i :: 0 <= i < end && (forall m :: m in ms ==> !(m.start <= i < m.end)) ==> a[i] == b[i]
  }

  lemma {:induction false} SameOutsideSameText(a: string, b: string, ms: seq<Match>, end: nat)
    requires end <= |a| && end <= |b| && Chain(ms, end) && SameOutside(a, b, ms, end)
    ensures Rebuilt(a, ms, end) == Rebuilt(b, ms, end)
  {
    if ms == [] {
      assert a[..end] == b[..end];
    } else {
      var m, rest := ms[0], ms[1..];
      ChainEnds(rest, m.start);
      assert ms == [m] + rest;
      assert SameOutside(a, b, rest, m.start);
      assert a[m.end..end] == b[m.end..end];
      SameOutsideSameText(a, b, rest, m.start);
    }
  }

  lemma {:induction false} ChainEnds(ms: seq<Match>, end: nat)
    requires Chain(ms, end)
    ensures forall m :: m in ms ==> m.end <= end
  {
    if ms != [] {
      ChainEnds(ms[1..], ms[0].start);
      assert ms == [ms[0]] + ms[1..];
    }
  }

  /** Nothing of a span that is replaced shows in the result: texts that differ in such spans only are redacted to one
      text. */
  lemma ReplacedSpansDoNotShow(a: string, b: string, ms: seq<Match>)
    requires |a| == |b| && InRange(a, ms)
    requires SameOutside(a, b, Applied(Ordered(ms), |a| + 1), |a|)
    ensures SpliceAll(a, Applied(Ordered(ms), |a| + 1)) == SpliceAll(b, Applied(Ordered(ms), |a| + 1))
  {
    hide Applied, Ordered, SpliceAll, Rebuilt, Chain, SameOutside;
    assert InRange(b, ms);
    hide InRange;
    RedactionIsTheRebuiltText(a, ms);
    RedactionIsTheRebuiltText(b, ms);
    SameOutsideSameText(a, b, Applied(Ordered(ms), |a| + 1), |a|);
  }

  // ----- which matches are applied ------------------------------------------------------------------------------

  /** Of two matches, the first of them given earlier: both are applied. With one start the later given must be empty,
      because the earlier is applied first. */
  predicate Clears(a: Match, b: Match) {
    if a.start >= b.start then b.end <= a.start else a.end <= b.start
  }

  predicate ClearOf(m: Match, ms: seq<Match>) {
    forall i :: 0 <= i < |ms| ==> Clears(m, ms[i])
  }

  predicate AllClear(ms: seq<Match>) {
    forall i, j :: 0 <= i < j < |ms| ==> Clears(ms[i], ms[j])
  }

  lemma AllClearFirst(ms: seq<Match>)
    requires ms != []
    ensures AllClear(ms) <==> ClearOf(ms[0], ms[1..]) && AllClear(ms[1..])
  {
    if ClearOf(ms[0], ms[1..]) && AllClear(ms[1..]) {
      forall i, j | 0 <= i < j < |ms| ensures Clears(ms[i], ms[j]) {
        assert ms[j] == ms[1..][j - 1];
        assert i > 0 ==> ms[i] == ms[1..][i - 1];
      }
    }
    if AllClear(ms) {
      forall j | 0 <= j < |ms| - 1 ensures Clears(ms[0], ms[1..][j]) {
        assert ms[1..][j] == ms[j + 1];
      }
    }
  }

  lemma ClearOfFirst(m: Match, x: Match, ms: seq<Match>)
    ensures ClearOf(m, [x] + ms) <==> Clears(m, x) && ClearOf(m, ms)
  {
    if ClearOf(m, [x] + ms) {
      forall i | 0 <= i < |ms| ensures Clears(m, ms[i]) {
        assert ms[i] == ([x] + ms)[i + 1];
      }
      assert ([x] + ms)[0] == x;
    }
  }

  lemma {:induction false} InsertClear(m: Match, x: Match, ms: seq<Match>)
    ensures ClearOf(m, Insert(x, ms)) <==> Clears(m, x) && ClearOf(m, ms)
  {
    if ms != [] && ms[0].start > x.start {
      InsertClear(m, x, ms[1..]);
      ClearOfFirst(m, ms[0], ms[1..]);
      ClearOfFirst(m, ms[0], Insert(x, ms[1..]));
      assert ms == [ms[0]] + ms[1..];
    } else {
      ClearOfFirst(m, x, ms);
    }
  }

  /** The sort changes the order of no two matches with one start, so it keeps what must be clear of what. */
  lemma {:induction false} InsertAllClear(m: Match, ms: seq<Match>)
    ensures AllClear(Insert(m, ms)) <==> ClearOf(m, ms) && AllClear(ms)
  {
    AllClearFirst(Insert(m, ms));
    if ms != [] && ms[0].start > m.start {
      AllClearFirst(ms);
      InsertAllClear(m, ms[1..]);
      InsertClear(ms[0], m, ms[1..]);
      ClearOfFirst(m, ms[0], ms[1..]);
      assert ms == [ms[0]] + ms[1..];
      assert Insert(m, ms)[1..] == Insert(m, ms[1..]);
    } else {
      assert Insert(m, ms)[1..] == ms;
    }
  }

  lemma {:induction false} OrderedAllClear(ms: seq<Match>)
    ensures AllClear(Ordered(ms)) <==> AllClear(ms)
    ensures forall m :: ClearOf(m, Ordered(ms)) <==> ClearOf(m, ms)
  {
    if ms != [] {
      OrderedAllClear(ms[1..]);
      InsertAllClear(ms[0], Ordered(ms[1..]));
      AllClearFirst(ms);
      forall m ensures ClearOf(m, Ordered(ms)) <==> ClearOf(m, ms) {
        InsertClear(m, ms[0], Ordered(ms[1..]));
        ClearOfFirst(m, ms[0], ms[1..]);
        assert ms == [ms[0]] + ms[1..];
      }
    }
  }

  predicate EndBy(ms: seq<Match>, bound: nat) {
    forall i :: 0 <= i < |ms| ==> ms[i].end <= bound
  }

  lemma ClearMeansBefore(m: Match, rest: seq<Match>)
    requires StartBy(rest, m.start)
    ensures ClearOf(m, rest) <==> EndBy(rest, m.start)
  {
    assert forall i :: 0 <= i < |rest| ==> (Clears(m, rest[i]) <==> rest[i].end <= m.start);
  }

  lemma EndByFirst(ms: seq<Match>, bound: nat)
    requires ms != [] && EndBy(ms[1..], ms[0].start) && ms[0].start <= ms[0].end
    ensures EndBy(ms, bound) <==> ms[0].end <= bound
  {
    assert forall i :: 1 <= i < |ms| ==> ms[i] == ms[1..][i - 1];
  }

  lemma {:induction false} AllAppliedWhenClear(text: string, ordered: seq<Match>, lastStart: nat)
    requires Descending(ordered) && InRange(text, ordered)
    ensures Applied(ordered, lastStart) == ordered <==> AllClear(ordered) && EndBy(ordered, lastStart)
  {
    if ordered != [] {
      var m, rest := ordered[0], ordered[1..];
      assert ordered == [m] + rest;
      assert InRange(text, rest);
      AllClearFirst(ordered);
      AllAppliedWhenClear(text, rest, m.start);
      AppliedFirst(ordered, lastStart);
      ClearMeansBefore(m, rest);
      hide AllClear, ClearOf, StartBy, Applied;
      if EndBy(rest, m.start) {
        EndByFirst(ordered, lastStart);
      }
    }
  }

  lemma AppliedFirst(ordered: seq<Match>, lastStart: nat)
    requires ordered != []
    ensures Applied(ordered, lastStart) == ordered
            <==> ordered[0].end <= lastStart && Applied(ordered[1..], ordered[0].start) == ordered[1..]
  {
    AppliedShorter(ordered[1..], lastStart);
    assert ordered == [ordered[0]] + ordered[1..];
  }

  lemma {:induction false} AppliedShorter(ordered: seq<Match>, lastStart: nat)
    ensures |Applied(ordered, lastStart)| <= |ordered|
  {
    if ordered != [] {
      AppliedShorter(ordered[1..], lastStart);
      AppliedShorter(ordered[1..], ordered[0].start);
    }
  }

  predicate Apart(a: Match, b: Match) {
    a.end <= b.start || b.end <= a.start
  }

  /** No two matches overlap, and none that is empty is given before another that starts where it stands. */
  predicate Disjoint(ms: seq<Match>) {
    forall i, j :: 0 <= i < j < |ms| ==>
      Apart(ms[i], ms[j]) && !(ms[i].start == ms[i].end == ms[j].start < ms[j].end)
  }

  lemma DisjointIsClear(text: string, ms: seq<Match>)
    requires InRange(text, ms)
    ensures Disjoint(ms) <==> AllClear(ms)
  {
    forall i, j | 0 <= i < j < |ms|
      ensures Apart(ms[i], ms[j]) && !(ms[i].start == ms[i].end == ms[j].start < ms[j].end) <==> Clears(ms[i], ms[j])
    {
    }
  }

  /** Every match in the text is applied exactly when they are disjoint. */
  lemma AllMatchesAreApplied(text: string, ms: seq<Match>)
    requires InRange(text, ms)
    ensures Applied(Ordered(ms), |text| + 1) == Ordered(ms) <==> Disjoint(ms)
  {
    OrderedIs(ms);
    OrderedAllClear(ms);
    InRangeOrdered(text, ms);
    DisjointIsClear(text, ms);
    AllAppliedWhenClear(text, Ordered(ms), |text| + 1);
  }

  /** Disjoint matches are each replaced by their placeholder; every other character stays, in order. */
  lemma DisjointMatchesAreAllReplaced(text: string, ms: seq<Match>)
    requires InRange(text, ms) && Disjoint(ms)
    ensures Chain(Ordered(ms), |text|)
    ensures SpliceAll(text, Applied(Ordered(ms), |text| + 1)) == Rebuilt(text, Ordered(ms), |text|)
  {
    AllMatchesAreApplied(text, ms);
    RedactionIsTheRebuiltText(text, ms);
  }

  // ----- order of the matches -----------------------------------------------------------------------------------

  ghost predicate DistinctStarts(ms: seq<Match>) {
    forall x, y :: x in ms && y in ms && x.start == y.start ==> x == y
  }

  lemma FirstIsLatest(ms: seq<Match>, x: Match)
    requires Descending(ms) && x in ms
    ensures x.start <= ms[0].start
  {
    assert ms == [ms[0]] + ms[1..];
  }

  lemma SameMembers(a: seq<Match>, b: seq<Match>)
    requires multiset(a) == multiset(b)
    ensures |a| == |b| && forall x :: x in a <==> x in b
  {
    assert |multiset(a)| == |a| && |multiset(b)| == |b|;
    assert forall x :: x in a <==> x in multiset(a);
    assert forall x :: x in b <==> x in multiset(b);
  }

  lemma WithoutFirst(a: seq<Match>, b: seq<Match>)
    requires a != [] && b != [] && a[0] == b[0] && multiset(a) == multiset(b)
    ensures multiset(a[1..]) == multiset(b[1..])
  {
    assert a == [a[0]] + a[1..] && b == [b[0]] + b[1..];
    assert multiset(a[1..]) == multiset(a) - multiset{a[0]};
    assert multiset(b[1..]) == multiset(b) - multiset{b[0]};
  }

  lemma {:induction false} OneDescendingOrder(a: seq<Match>, b: seq<Match>)
    requires Descending(a) && Descending(b) && multiset(a) == multiset(b) && DistinctStarts(a)
    ensures a == b
  {
    SameMembers(a, b);
    if a != [] {
      assert a[0] in b && b[0] in a;
      FirstIsLatest(a, b[0]);
      FirstIsLatest(b, a[0]);
      WithoutFirst(a, b);
      assert a == [a[0]] + a[1..] && b == [b[0]] + b[1..];
      assert DistinctStarts(a[1..]);
      OneDescendingOrder(a[1..], b[1..]);
    }
  }

  /** The matches that start at one place, in order. */
  function At(ms: seq<Match>, start: nat): seq<Match> {
    if ms == [] then [] else (if ms[0].start == start then [ms[0]] else []) + At(ms[1..], start)
  }

  lemma {:induction false} AtAppend(a: seq<Match>, b: seq<Match>, start: nat)
    ensures At(a + b, start) == At(a, start) + At(b, start)
  {
    if a == [] {
      assert a + b == b;
    } else {
      assert (a + b)[1..] == a[1..] + b;
      AtAppend(a[1..], b, start);
      var head := if a[0].start == start then [a[0]] else [];
      assert head + (At(a[1..], start) + At(b, start)) == head + At(a[1..], start) + At(b, start);
    }
  }

  lemma {:induction false} InsertIsStable(m: Match, ms: seq<Match>, start: nat)
    ensures At(Insert(m, ms), start) == At([m] + ms, start)
  {
    assert ([m] + ms)[1..] == ms;
    if ms != [] && ms[0].start > m.start {
      InsertIsStable(m, ms[1..], start);
      assert ([m] + ms[1..])[1..] == ms[1..];
    }
  }

  /** The sort is stable: matches with one start keep their order. */
  lemma {:induction false} OrderedIsStable(ms: seq<Match>, start: nat)
    ensures At(Ordered(ms), start) == At(ms, start)
  {
    if ms != [] {
      OrderedIsStable(ms[1..], start);
      InsertIsStable(ms[0], Ordered(ms[1..]), start);
      assert ([ms[0]] + Ordered(ms[1..]))[1..] == Ordered(ms[1..]);
    }
  }

  lemma AtHead(prefix: seq<Match>, x: Match, rest: seq<Match>)
    ensures var at := At(prefix + ([x] + rest), x.start);
            |At(prefix, x.start)| < |at| && at[|At(prefix, x.start)|] == x
  {
    AtAppend(prefix, [x] + rest, x.start);
    assert ([x] + rest)[1..] == rest;
  }

  /** Two matches of one start, given in the other order, are taken in the other order. */
  lemma SwapIsSeen(prefix: seq<Match>, x: Match, middle: seq<Match>, y: Match, rest: seq<Match>)
    requires x.start == y.start && x != y
    ensures var one, other := prefix + ([x] + (middle + [y] + rest)), prefix + ([y] + (middle + [x] + rest));
            multiset(one) == multiset(other) && Ordered(one) != Ordered(other)
  {
    var one, other := prefix + ([x] + (middle + [y] + rest)), prefix + ([y] + (middle + [x] + rest));
    AtHead(prefix, x, middle + [y] + rest);
    AtHead(prefix, y, middle + [x] + rest);
    hide At;
    OrderedIsStable(one, x.start);
    OrderedIsStable(other, x.start);
  }

  lemma Parts(ms: seq<Match>, i: nat, j: nat)
    requires i < j < |ms|
    ensures ms == ms[..i] + ([ms[i]] + (ms[i + 1..j] + [ms[j]] + ms[j + 1..]))
  {
  }

  lemma OtherOrder(a: seq<Match>) returns (b: seq<Match>)
    requires !DistinctStarts(a)
    ensures multiset(b) == multiset(a) && Ordered(b) != Ordered(a)
  {
    var x, y :| x in a && y in a && x.start == y.start && x != y;
    var i :| 0 <= i < |a| && a[i] == x;
    var j :| 0 <= j < |a| && a[j] == y;
    if i < j {
      b := Swapped(a, i, j);
    } else {
      b := Swapped(a, j, i);
    }
  }

  lemma Swapped(a: seq<Match>, k: nat, l: nat) returns (b: seq<Match>)
    requires k < l < |a| && a[k].start == a[l].start && a[k] != a[l]
    ensures multiset(b) == multiset(a) && Ordered(b) != Ordered(a)
  {
    hide Ordered;
    var prefix, x, middle, y, rest := a[..k], a[k], a[k + 1..l], a[l], a[l + 1..];
    Parts(a, k, l);
    SwapIsSeen(prefix, x, middle, y, rest);
    b := prefix + ([y] + (middle + [x] + rest));
  }

  lemma SameOrder(a: seq<Match>, b: seq<Match>)
    requires DistinctStarts(a) && multiset(b) == multiset(a)
    ensures Ordered(b) == Ordered(a)
  {
    OrderedIs(a);
    OrderedIs(b);
    SameMembers(Ordered(a), a);
    OneDescendingOrder(Ordered(a), Ordered(b));
  }

  /** The order in which matches are given makes no difference to the order in which they are taken exactly when no
      two different ones start at one place. */
  lemma MatchOrderDoesNotMatter(a: seq<Match>)
    ensures (forall b :: multiset(b) == multiset(a) ==> Ordered(b) == Ordered(a)) <==> DistinctStarts(a)
  {
    hide Ordered, DistinctStarts;
    if DistinctStarts(a) {
      forall b | multiset(b) == multiset(a) ensures Ordered(b) == Ordered(a) {
        SameOrder(a, b);
      }
    } else {
      var b := OtherOrder(a);
    }
  }

  lemma NonEmptyDisjointHaveDistinctStarts(text: string, ms: seq<Match>)
    requires InRange(text, ms) && Disjoint(ms) && forall i :: 0 <= i < |ms| ==> ms[i].start < ms[i].end
    ensures DistinctStarts(ms)
  {
    forall i, j | 0 <= i < j < |ms| ensures ms[i].start != ms[j].start {
      assert Apart(ms[i], ms[j]);
    }
  }

  /** So disjoint matches that are not empty give one text in every order, the one in which each is its placeholder. */
  lemma DisjointMatchesInAnyOrder(text: string, a: seq<Match>, b: seq<Match>)
    requires InRange(text, a) && Disjoint(a) && forall i :: 0 <= i < |a| ==> a[i].start < a[i].end
    requires multiset(b) == multiset(a)
    ensures Chain(Ordered(a), |text|)
    ensures SpliceAll(text, Applied(Ordered(b), |text| + 1)) == Rebuilt(text, Ordered(a), |text|)
  {
    NonEmptyDisjointHaveDistinctStarts(text, a);
    MatchOrderDoesNotMatter(a);
    DisjointMatchesAreAllReplaced(text, a);
  }

  // ----- what is left of the text -------------------------------------------------------------------------------

  predicate Covered(ms: seq<Match>, i: nat) {
    exists k :: 0 <= k < |ms| && ms[k].start <= i < ms[k].end
  }

  /** The characters before `end` that no match covers, in order. */
  function Uncovered(text: string, ms: seq<Match>, end: nat): string
    requires end <= |text|
  {
    if end == 0 then ""
    else Uncovered(text, ms, end - 1) + if Covered(ms, end - 1) then "" else [text[end - 1]]
  }

  /** The pieces of the text between the matches, and the placeholders between the pieces. */
  function Pieces(text: string, ms: seq<Match>, end: nat): (r: seq<string>)
    requires end <= |text| && Chain(ms, end)
    ensures |r| == |ms| + 1
  {
    if ms == [] then [text[..end]] else Pieces(text, ms[1..], ms[0].start) + [text[ms[0].end..end]]
  }

  function Joined(pieces: seq<string>): string {
    if pieces == [] then "" else Joined(pieces[..|pieces| - 1]) + pieces[|pieces| - 1]
  }

  /** Pieces with the placeholders of the matches, given latest first, between them. */
  function Interleaved(pieces: seq<string>, ms: seq<Match>): string
    requires |pieces| == |ms| + 1
  {
    if ms == [] then pieces[0]
    else Interleaved(pieces[..|ms|], ms[1..]) + Placeholder(ms[0]) + pieces[|ms|]
  }

  lemma {:induction false} RebuiltInterleaves(text: string, ms: seq<Match>, end: nat)
    requires end <= |text| && Chain(ms, end)
    ensures Rebuilt(text, ms, end) == Interleaved(Pieces(text, ms, end), ms)
  {
    if ms != [] { PlaceholderIs(ms[0]); }
    hide Placeholder;
    if ms != [] {
      RebuiltInterleaves(text, ms[1..], ms[0].start);
      var rest := Pieces(text, ms[1..], ms[0].start);
      assert Pieces(text, ms, end)[..|ms|] == rest;
    }
  }

  lemma CoveredFirst(m: Match, ms: seq<Match>, i: nat)
    ensures Covered([m] + ms, i) <==> m.start <= i < m.end || Covered(ms, i)
  {
    var all := [m] + ms;
    if k :| 0 <= k < |ms| && ms[k].start <= i < ms[k].end {
      assert all[k + 1] == ms[k];
    }
    if m.start <= i < m.end {
      assert all[0] == m;
    }
    if k :| 0 <= k < |all| && all[k].start <= i < all[k].end {
      assert k > 0 ==> all[k] == ms[k - 1];
    }
  }

  lemma {:induction false} ChainIsBelow(ms: seq<Match>, end: nat, i: nat)
    requires Chain(ms, end) && i >= end
    ensures !Covered(ms, i)
  {
    if ms != [] {
      ChainIsBelow(ms[1..], ms[0].start, i);
      CoveredFirst(ms[0], ms[1..], i);
      assert ms == [ms[0]] + ms[1..];
    }
  }

  lemma {:induction false} UncoveredAlike(text: string, a: seq<Match>, b: seq<Match>, end: nat)
    requires end <= |text| && forall i :: 0 <= i < end ==> (Covered(a, i) <==> Covered(b, i))
    ensures Uncovered(text, a, end) == Uncovered(text, b, end)
  {
    hide Covered;
    if end > 0 { UncoveredAlike(text, a, b, end - 1); }
  }

  lemma {:induction false} UncoveredStretch(text: string, ms: seq<Match>, from: nat, end: nat, covered: bool)
    requires from <= end <= |text| && forall i :: from <= i < end ==> (Covered(ms, i) <==> covered)
    ensures Uncovered(text, ms, end) == Uncovered(text, ms, from) + if covered then "" else text[from..end]
    decreases end
  {
    hide Covered;
    if from < end {
      UncoveredStretch(text, ms, from, end - 1, covered);
      assert !covered ==> text[from..end] == text[from..end - 1] + [text[end - 1]];
    }
  }

  /** Every character outside the matches is in the pieces, once and in order, and no other is. */
  lemma {:induction false} PiecesAreUncovered(text: string, ms: seq<Match>, end: nat)
    requires end <= |text| && Chain(ms, end)
    ensures Joined(Pieces(text, ms, end)) == Uncovered(text, ms, end)
  {
    if ms == [] {
      UncoveredStretch(text, [], 0, end, false);
      assert text[..end] == text[0..end];
      assert [text[..end]][..0] == [];
    } else {
      var m, rest := ms[0], ms[1..];
      PiecesAreUncovered(text, rest, m.start);
      var pieces := Pieces(text, rest, m.start);
      assert (pieces + [text[m.end..end]])[..|pieces|] == pieces;
      assert ms == [m] + rest;
      hide Covered, Uncovered, Pieces;
      forall i: nat ensures Covered(ms, i) <==> m.start <= i < m.end || Covered(rest, i) {
        CoveredFirst(m, rest, i);
      }
      forall i: nat | i >= m.start ensures !Covered(rest, i) {
        ChainIsBelow(rest, m.start, i);
      }
      UncoveredAlike(text, ms, rest, m.start);
      UncoveredStretch(text, ms, m.start, m.end, true);
      UncoveredStretch(text, ms, m.end, end, false);
    }
  }

  /** For every list of matches in the text: the result is the pieces of the text between the matches applied, with
      their placeholders between them, and the pieces are the characters that none of those matches covers. What a
      match that is not applied covers alone stays in clear. */
  lemma WhatIsNotCoveredStays(text: string, ms: seq<Match>)
    requires InRange(text, ms)
    ensures var applied := Applied(Ordered(ms), |text| + 1);
            && Chain(applied, |text|)
            && SpliceAll(text, applied) == Interleaved(Pieces(text, applied, |text|), applied)
            && Joined(Pieces(text, applied, |text|)) == Uncovered(text, applied, |text|)
  {
    RedactionIsTheRebuiltText(text, ms);
    var applied := Applied(Ordered(ms), |text| + 1);
    RebuiltInterleaves(text, applied, |text|);
    PiecesAreUncovered(text, applied, |text|);
  }

  // ----- overlaps -----------------------------------------------------------------------------------------------

  lemma TwoOrdered(a: Match, b: Match)
    ensures Ordered([a, b]) == if b.start <= a.start then [a, b] else [b, a]
  {
    assert [a, b][1..] == [b] && [b][1..] == [];
    assert Ordered([b]) == [b];
    if b.start > a.start {
      assert Insert(a, [b]) == [b] + Insert(a, []);
    }
  }

  lemma TwoApplied(a: Match, b: Match, lastStart: nat)
    requires a.end <= lastStart
    ensures Applied([a, b], lastStart) == if b.end <= a.start then [a, b] else [a]
  {
    assert [a, b][1..] == [b] && [b][1..] == [];
    assert Applied([b], a.start) == if b.end <= a.start then [b] else [];
  }

  lemma OneMatch(text: string, b: Match)
    requires b.start <= b.end <= |text| && Chain([b], |text|)
    ensures Interleaved(Pieces(text, [b], |text|), [b]) == text[..b.start] + Placeholder(b) + text[b.end..]
  {
    hide Placeholder;
    var x, y := text[..b.start], text[b.end..];
    assert [b][1..] == [];
    assert Pieces(text, [], b.start) == [x];
    assert text[b.end..|text|] == y;
    assert Pieces(text, [b], |text|) == [x] + [y];
    assert ([x] + [y])[..1] == [x];
    assert Interleaved([x], []) == x;
  }

  /** Of two matches that overlap only the later is applied; what precedes it stays as it was. */
  lemma OverlapStaysInClear(text: string, a: Match, b: Match)
    requires a.end <= |text| && b.end <= |text| && b.start <= b.end && a.start < b.start < a.end
    ensures Applied(Ordered([a, b]), |text| + 1) == [b]
    ensures SpliceAll(text, [b]) == text[..b.start] + Placeholder(b) + text[b.end..]
  {
    TwoOrdered(a, b);
    TwoApplied(b, a, |text| + 1);
    hide Placeholder, Ordered, Applied, Joined, Uncovered, Pieces, Interleaved, SpliceAll;
    WhatIsNotCoveredStays(text, [a, b]);
    OneMatch(text, b);
  }

  /** An empty match given before one that starts where it stands keeps that one from being applied; given after it,
      it does not. */
  lemma EmptyMatchShadows(text: string, a: Match, b: Match)
    requires a.start == a.end == b.start < b.end <= |text|
    ensures Applied(Ordered([a, b]), |text| + 1) == [a]
    ensures Applied(Ordered([b, a]), |text| + 1) == [b, a]
  {
    TwoOrdered(a, b);
    TwoOrdered(b, a);
    TwoApplied(a, b, |text| + 1);
    TwoApplied(b, a, |text| + 1);
  }
}
