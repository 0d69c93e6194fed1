/** Canonical JSON: one text per value up to member order (`canonicalize` in fingerprint.rs, and the
    same scheme in the dashboard's incident-store.ts).

    The two programs sort member names differently: Rust compares UTF-8 bytes, which is code point
    order, and JavaScript compares UTF-16 code units. Both are strict total orders on strings, and
    that is all the results below need. */
module Canonical {
  import opened Json

  // ----- orders on member names --------------------------------------------------------------

  predicate LexLess(a: seq<nat>, b: seq<nat>) {
    if b == [] then false
    else if a == [] then true
    else if a[0] == b[0] then LexLess(a[1..], b[1..])
    else a[0] < b[0]
  }

  lemma {:induction false} LexLessTransitive(a: seq<nat>, b: seq<nat>, c: seq<nat>)
    requires LexLess(a, b) && LexLess(b, c)
    ensures LexLess(a, c)
  {
    if a != [] && a[0] == b[0] == c[0] {
      LexLessTransitive(a[1..], b[1..], c[1..]);
    }
  }

  lemma {:induction false} LexLessTotal(a: seq<nat>, b: seq<nat>)
    ensures !LexLess(a, a)
    ensures a == b || LexLess(a, b) || LexLess(b, a)
    ensures !(LexLess(a, b) && LexLess(b, a))
  {
    if a != [] {
      LexLessTotal(a[1..], if b != [] && a[0] == b[0] then b[1..] else a[1..]);
      if b != [] && a[0] == b[0] && a[1..] == b[1..] {
        assert a == [a[0]] + a[1..] == b;
      }
    }
  }

  datatype Order = CodePoints | Utf16Units {

    function Units(c: char): (u: seq<nat>)
      ensures u != []
    {
      if this == CodePoints || c as int < 0x10000 then [c as int]
      else [0xD800 + (c as int - 0x10000) / 0x400, 0xDC00 + (c as int - 0x10000) % 0x400]
    }

    function Encode(s: string): seq<nat> {
      if s == "" then [] else Units(s[0]) + Encode(s[1..])
    }

    predicate Less(a: string, b: string) {
      LexLess(Encode(a), Encode(b))
    }

    /** The units of a character are a prefix code, since no character is a surrogate. */
    lemma UnitsPrefixFree(c: char, d: char, s: seq<nat>, t: seq<nat>)
      requires Units(c) + s == Units(d) + t
      ensures c == d && s == t
    {
      var w := Units(c) + s;
      assert w[0] == Units(c)[0] == Units(d)[0];
      assert |Units(c)| == |Units(d)|;
      if |Units(c)| == 2 {
        assert w[1] == Units(c)[1] == Units(d)[1];
        assert c as int == 0x10000 + (w[0] - 0xD800) * 0x400 + (w[1] - 0xDC00);
        assert d as int == 0x10000 + (w[0] - 0xD800) * 0x400 + (w[1] - 0xDC00);
      }
      assert s == w[|Units(c)|..] == t;
    }

    lemma {:induction false} EncodeInjective(a: string, b: string)
      requires Encode(a) == Encode(b)
      ensures a == b
    {
      if a != "" && b != "" {
        UnitsPrefixFree(a[0], b[0], Encode(a[1..]), Encode(b[1..]));
        EncodeInjective(a[1..], b[1..]);
        assert a == [a[0]] + a[1..] && b == [b[0]] + b[1..];
      }
    }

    lemma LessTotal(a: string, b: string)
      ensures !Less(a, a)
      ensures a == b || Less(a, b) || Less(b, a)
      ensures !(Less(a, b) && Less(b, a))
    {
      LexLessTotal(Encode(a), Encode(b));
      if Encode(a) == Encode(b) {
        EncodeInjective(a, b);
      }
    }

    lemma LessTransitive(a: string, b: string, c: string)
      requires Less(a, b) && Less(b, c)
      ensures Less(a, c)
    {
      LexLessTransitive(Encode(a), Encode(b), Encode(c));
    }
  }

  // ----- sorting members -----------------------------------------------------------------------

  ghost predicate Ascending(o: Order, members: seq<Member>) {
    forall i, j :: 0 <= i < j < |members| ==> o.Less(members[i].key, members[j].key)
  }

  ghost predicate SameMembers(xs: seq<Member>, ys: seq<Member>) {
    |xs| == |ys| && forall m :: m in xs <==> m in ys
  }

  ghost function Keys(members: seq<Member>): set<string> {
    set m | m in members :: m.key
  }

  function Insert(o: Order, m: Member, members: seq<Member>): (r: seq<Member>)
    ensures |r| == |members| + 1
    ensures forall x :: x in r <==> x == m || x in members
  {
    if members == [] || o.Less(m.key, members[0].key) then [m] + members
    else [members[0]] + Insert(o, m, members[1..])
  }

  function Sort(o: Order, members: seq<Member>): (r: seq<Member>)
    ensures |r| == |members|
    ensures forall x :: x in r <==> x in members
  {
    if members == [] then [] else Insert(o, members[0], Sort(o, members[1..]))
  }

  lemma {:induction false} InsertAscending(o: Order, m: Member, members: seq<Member>)
    requires Ascending(o, members) && m.key !in Keys(members)
    ensures Ascending(o, Insert(o, m, members))
  {
    hide Order.Less;
    var r := Insert(o, m, members);
    if members != [] {
      var head := members[0];
      o.LessTotal(m.key, head.key);
      assert head in members && head.key in Keys(members);
      if o.Less(m.key, head.key) {
        forall j | 1 <= j < |r| ensures o.Less(r[0].key, r[j].key) {
          if j > 1 { o.LessTransitive(m.key, head.key, r[j].key); }
        }
      } else {
        assert forall x :: x in members[1..] ==> x in members;
        InsertAscending(o, m, members[1..]);
        forall j | 1 <= j < |r| ensures o.Less(r[0].key, r[j].key) {
          assert r[j] in Insert(o, m, members[1..]);
        }
      }
    }
  }

  lemma {:induction false} SortAscending(o: Order, members: seq<Member>)
    requires DistinctKeys(members)
    ensures Ascending(o, Sort(o, members))
  {
    if members != [] {
      SortAscending(o, members[1..]);
      InsertAscending(o, members[0], Sort(o, members[1..]));
    }
  }

  lemma KeysEmpty(xs: seq<Member>)
    ensures Keys(xs) == {} <==> xs == []
  {
    if xs != [] { assert xs[0].key in Keys(xs); }
  }

  /** A strictly ascending list of members is determined, name by name, by its set of names. */
  lemma {:induction false} AscendingKeysUnique(o: Order, xs: seq<Member>, ys: seq<Member>)
    requires Ascending(o, xs) && Ascending(o, ys) && Keys(xs) == Keys(ys)
    ensures |xs| == |ys|
    ensures forall i :: 0 <= i < |xs| ==> xs[i].key == ys[i].key
  {
    if xs == [] || ys == [] {
      KeysEmpty(xs);
      KeysEmpty(ys);
    } else {
      AscendingHead(o, xs, ys);
      AscendingTail(o, xs);
      AscendingTail(o, ys);
      AscendingKeysUnique(o, xs[1..], ys[1..]);
    }
  }

  lemma AscendingHead(o: Order, xs: seq<Member>, ys: seq<Member>)
    requires Ascending(o, xs) && Ascending(o, ys) && Keys(xs) == Keys(ys)
    requires xs != [] && ys != []
    ensures xs[0].key == ys[0].key
  {
    assert xs[0].key in Keys(ys) && ys[0].key in Keys(xs);
    var i :| 0 <= i < |ys| && ys[i].key == xs[0].key;
    var j :| 0 <= j < |xs| && xs[j].key == ys[0].key;
    o.LessTotal(xs[0].key, ys[0].key);
  }

  lemma AscendingTail(o: Order, xs: seq<Member>)
    requires Ascending(o, xs) && xs != []
    ensures Ascending(o, xs[1..]) && Keys(xs[1..]) == Keys(xs) - {xs[0].key}
  {
    forall k | k in Keys(xs) - {xs[0].key} ensures k in Keys(xs[1..]) {
      var i :| 0 <= i < |xs| && xs[i].key == k;
      assert xs[1..][i - 1] == xs[i];
    }
    forall k | k in Keys(xs[1..]) ensures k in Keys(xs) - {xs[0].key} {
      var i :| 0 <= i < |xs[1..]| && xs[1..][i].key == k;
      assert xs[1..][i] == xs[i + 1];
      o.LessTotal(xs[0].key, k);
    }
  }

  // ----- the canonical text ----------------------------------------------------------------------

  /** The deterministic text that is hashed: members sorted by name at every level. */
  function Canonicalize(o: Order, v: Value): string
    decreases v, 1, 0
  {
    match v
    case Obj(members) => "{" + CanonicalMembers(o, Sort(o, members), v) + "}"
    case Arr(items) => "[" + CanonicalItems(o, items, v) + "]"
    case other => Print(other)
  }

  function CanonicalItems(o: Order, items: seq<Value>, whole: Value): string
    requires forall i :: 0 <= i < |items| ==> items[i] < whole
    decreases whole, 0, |items|
  {
    if items == [] then ""
    else Canonicalize(o, items[0])
         + (if |items| == 1 then "" else "," + CanonicalItems(o, items[1..], whole))
  }

  function CanonicalMembers(o: Order, members: seq<Member>, whole: Value): string
    requires forall m :: m in members ==> m.value < whole
    decreases whole, 0, |members|
  {
    if members == [] then ""
    else Quote(members[0].key) + ":" + Canonicalize(o, members[0].value)
         + (if |members| == 1 then "" else "," + CanonicalMembers(o, members[1..], whole))
  }

  // ----- equality up to member order -------------------------------------------------------------

  /** The independent reading: arrays agree place by place, objects name by name. */
  ghost predicate Same(v: Value, w: Value)
    decreases v
  {
    match (v, w)
    case (Arr(xs), Arr(ys)) => |xs| == |ys| && forall i :: 0 <= i < |xs| ==> Same(xs[i], ys[i])
    case (Obj(xs), Obj(ys)) =>
      && Keys(xs) == Keys(ys)
      && forall i, j :: 0 <= i < |xs| && 0 <= j < |ys| && xs[i].key == ys[j].key ==>
                          Same(xs[i].value, ys[j].value)
    case _ => v == w
  }

  /** The value with the members of every object sorted. */
  function Norm(o: Order, v: Value): Value
    decreases v, 1, 0
  {
    match v
    case Obj(members) => Obj(NormMembers(o, Sort(o, members), v))
    case Arr(items) => Arr(NormItems(o, items, v))
    case other => other
  }

  function NormItems(o: Order, items: seq<Value>, whole: Value): (r: seq<Value>)
    requires forall i :: 0 <= i < |items| ==> items[i] < whole
    ensures |r| == |items|
    ensures forall i :: 0 <= i < |r| ==> r[i] == Norm(o, items[i])
    decreases whole, 0, |items|
  {
    if items == [] then [] else [Norm(o, items[0])] + NormItems(o, items[1..], whole)
  }

  function NormMembers(o: Order, members: seq<Member>, whole: Value): (r: seq<Member>)
    requires forall m :: m in members ==> m.value < whole
    ensures |r| == |members|
    ensures forall i :: 0 <= i < |r| ==> r[i] == Member(members[i].key, Norm(o, members[i].value))
    decreases whole, 0, |members|
  {
    if members == [] then []
    else [Member(members[0].key, Norm(o, members[0].value))] + NormMembers(o, members[1..], whole)
  }

  lemma {:induction false} CanonicalizeIsPrintNorm(o: Order, v: Value)
    ensures Canonicalize(o, v) == Print(Norm(o, v))
    decreases v, 1, 0
  {
    match v {
      case Obj(members) => CanonicalMembersPrint(o, Sort(o, members), v);
      case Arr(items) => CanonicalItemsPrint(o, items, v);
      case _ =>
    }
  }

  lemma {:induction false} CanonicalItemsPrint(o: Order, items: seq<Value>, whole: Value)
    requires forall i :: 0 <= i < |items| ==> items[i] < whole
    ensures CanonicalItems(o, items, whole) == PrintItems(NormItems(o, items, whole))
    decreases whole, 0, |items|
  {
    hide Norm;
    hide Canonicalize;
    if items != [] {
      CanonicalizeIsPrintNorm(o, items[0]);
      CanonicalItemsPrint(o, items[1..], whole);
      assert NormItems(o, items, whole)[1..] == NormItems(o, items[1..], whole);
    }
  }

  lemma {:induction false} CanonicalMembersPrint(o: Order, members: seq<Member>, whole: Value)
    requires forall m :: m in members ==> m.value < whole
    ensures CanonicalMembers(o, members, whole) == PrintMembers(NormMembers(o, members, whole))
    decreases whole, 0, |members|
  {
    hide Norm;
    hide Canonicalize;
    if members != [] {
      CanonicalizeIsPrintNorm(o, members[0].value);
      CanonicalMembersPrint(o, members[1..], whole);
      assert NormMembers(o, members, whole)[1..] == NormMembers(o, members[1..], whole);
    }
  }

  lemma SortKeys(o: Order, members: seq<Member>)
    ensures Keys(Sort(o, members)) == Keys(members)
  {
    forall k ensures k in Keys(Sort(o, members)) <==> k in Keys(members) {
      assert forall m :: m in Sort(o, members) <==> m in members;
    }
  }

  lemma AscendingDistinct(o: Order, members: seq<Member>)
    requires Ascending(o, members)
    ensures DistinctKeys(members)
  {
    forall i, j | 0 <= i < j < |members| ensures members[i].key != members[j].key {
      o.LessTotal(members[i].key, members[j].key);
    }
  }

  lemma {:induction false} NormWellFormed(o: Order, v: Value)
    requires WellFormed(v)
    ensures WellFormed(Norm(o, v))
    decreases v
  {
    match v {
      case Obj(members) =>
        var sorted := Sort(o, members);
        SortAscending(o, members);
        AscendingDistinct(o, sorted);
        forall i | 0 <= i < |sorted| ensures WellFormed(Norm(o, sorted[i].value)) {
          assert sorted[i] in members;
          NormWellFormed(o, sorted[i].value);
        }
      case Arr(items) =>
        forall i | 0 <= i < |items| ensures WellFormed(Norm(o, items[i])) {
          NormWellFormed(o, items[i]);
        }
      case _ =>
    }
  }

  lemma {:induction false} SameImpliesNormEqual(o: Order, v: Value, w: Value)
    requires WellFormed(v) && WellFormed(w) && Same(v, w)
    ensures Norm(o, v) == Norm(o, w)
    decreases v
  {
    match (v, w) {
      case (Arr(xs), Arr(ys)) =>
        forall i | 0 <= i < |xs| ensures Norm(o, xs[i]) == Norm(o, ys[i]) {
          SameImpliesNormEqual(o, xs[i], ys[i]);
        }
        assert NormItems(o, xs, v) == NormItems(o, ys, w);
      case (Obj(xs), Obj(ys)) =>
        var a, b := Sort(o, xs), Sort(o, ys);
        SortedKeysAgree(o, xs, ys);
        forall i | 0 <= i < |a| ensures Norm(o, a[i].value) == Norm(o, b[i].value) {
          assert a[i] in xs && b[i] in ys;
          SameImpliesNormEqual(o, a[i].value, b[i].value);
        }
        assert NormMembers(o, a, v) == NormMembers(o, b, w);
      case _ =>
    }
  }

  lemma SortedKeysAgree(o: Order, xs: seq<Member>, ys: seq<Member>)
    requires DistinctKeys(xs) && DistinctKeys(ys) && Keys(xs) == Keys(ys)
    ensures |Sort(o, xs)| == |Sort(o, ys)|
    ensures forall i :: 0 <= i < |xs| ==> Sort(o, xs)[i].key == Sort(o, ys)[i].key
  {
    SortAscending(o, xs);
    SortAscending(o, ys);
    SortKeys(o, xs);
    SortKeys(o, ys);
    AscendingKeysUnique(o, Sort(o, xs), Sort(o, ys));
  }

  lemma {:induction false} NormEqualImpliesSame(o: Order, v: Value, w: Value)
    requires WellFormed(v) && WellFormed(w) && Norm(o, v) == Norm(o, w)
    ensures Same(v, w)
    decreases v
  {
    match v {
      case Arr(xs) =>
        var ys := w.items;
        assert NormItems(o, xs, v) == NormItems(o, ys, w);
        forall i | 0 <= i < |xs| ensures Same(xs[i], ys[i]) {
          assert Norm(o, xs[i]) == NormItems(o, xs, v)[i] == Norm(o, ys[i]);
          NormEqualImpliesSame(o, xs[i], ys[i]);
        }
      case Obj(xs) =>
        var ys := w.members;
        SortedMembersAgree(o, v, w);
        forall i, j | 0 <= i < |xs| && 0 <= j < |ys| && xs[i].key == ys[j].key
          ensures Same(xs[i].value, ys[j].value)
        {
          SortedMemberNorm(o, v, w, i, j);
          NormEqualImpliesSame(o, xs[i].value, ys[j].value);
        }
      case _ =>
    }
  }

  lemma PointwiseKeys(a: seq<Member>, b: seq<Member>)
    requires |a| == |b| && forall i :: 0 <= i < |a| ==> a[i].key == b[i].key
    ensures Keys(a) == Keys(b)
  {
    forall k ensures k in Keys(a) <==> k in Keys(b) {
      if k in Keys(a) { var i :| 0 <= i < |a| && a[i].key == k; assert b[i].key == k; }
      if k in Keys(b) { var i :| 0 <= i < |b| && b[i].key == k; assert a[i].key == k; }
    }
  }

  lemma NormMembersAgree(o: Order, v: Value, w: Value)
    requires v.Obj? && w.Obj? && Norm(o, v) == Norm(o, w)
    ensures |v.members| == |w.members|
    ensures NormMembers(o, Sort(o, v.members), v) == NormMembers(o, Sort(o, w.members), w)
  {
    hide Sort;
  }

  lemma SortedMembersAgree(o: Order, v: Value, w: Value)
    requires v.Obj? && w.Obj? && Norm(o, v) == Norm(o, w)
    ensures Keys(v.members) == Keys(w.members)
    ensures |v.members| == |w.members|
    ensures forall i :: 0 <= i < |v.members| ==>
                          && Sort(o, v.members)[i].key == Sort(o, w.members)[i].key
                          && Norm(o, Sort(o, v.members)[i].value) == Norm(o, Sort(o, w.members)[i].value)
  {
    NormMembersAgree(o, v, w);
    SortKeys(o, v.members);
    SortKeys(o, w.members);
    hide *;
    var a, b := Sort(o, v.members), Sort(o, w.members);
    forall i | 0 <= i < |a|
      ensures a[i].key == b[i].key && Norm(o, a[i].value) == Norm(o, b[i].value)
    {
      assert NormMembers(o, a, v)[i] == NormMembers(o, b, w)[i];
    }
    PointwiseKeys(a, b);
  }

  lemma SortedMemberNorm(o: Order, v: Value, w: Value, i: nat, j: nat)
    requires v.Obj? && w.Obj? && Norm(o, v) == Norm(o, w)
    requires DistinctKeys(v.members) && DistinctKeys(w.members)
    requires i < |v.members| && j < |w.members| && v.members[i].key == w.members[j].key
    ensures Norm(o, v.members[i].value) == Norm(o, w.members[j].value)
  {
    hide Norm;
    SortedMembersAgree(o, v, w);
    var a, b := Sort(o, v.members), Sort(o, w.members);
    assert v.members[i] in a;
    var k :| 0 <= k < |a| && a[k] == v.members[i];
    assert b[k] in w.members;
    var l :| 0 <= l < |w.members| && w.members[l] == b[k];
    assert l == j;
  }

  /** Canonical text decides equality up to member order, in both directions. */
  lemma CanonicalizeDecidesSame(o: Order, v: Value, w: Value)
    requires WellFormed(v) && WellFormed(w)
    ensures Canonicalize(o, v) == Canonicalize(o, w) <==> Same(v, w)
  {
    CanonicalizeIsPrintNorm(o, v);
    CanonicalizeIsPrintNorm(o, w);
    NormWellFormed(o, v);
    NormWellFormed(o, w);
    PrintInjective(Norm(o, v), Norm(o, w));
    if Same(v, w) {
      SameImpliesNormEqual(o, v, w);
    }
    if Norm(o, v) == Norm(o, w) {
      NormEqualImpliesSame(o, v, w);
    }
  }
}
