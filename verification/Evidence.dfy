/** Evidence bundles (incident-store.ts): what the dashboard signs, and what verification accepts.

    JavaScript has values JSON has not: an undefined member is dropped, an undefined array item
    prints as nothing at all, and a number that is not finite prints as null. */
module Evidence {
  import opened Wrappers
  import opened Json
  import opened Canonical

  datatype JsMember = JsMember(key: string, value: JsValue)

  datatype JsValue =
    | Undefined
    | NotFinite
    | Plain(scalar: Value)
    | JsArr(items: seq<JsValue>)
    | JsObj(members: seq<JsMember>)

  /** What the JavaScript object model guarantees of any value, plus the one thing it does not: that
      no array holds an undefined item. */
  predicate JsonLike(v: JsValue)
    decreases v
  {
    match v
    case Plain(s) => !s.Arr? && !s.Obj? && WellFormed(s)
    case JsArr(items) => forall i :: 0 <= i < |items| ==> !items[i].Undefined? && JsonLike(items[i])
    case JsObj(members) =>
      && (forall i, j :: 0 <= i < j < |members| ==> members[i].key != members[j].key)
      && (forall i :: 0 <= i < |members| ==> JsonLike(members[i].value))
    case _ => true
  }

  // ----- canonicalizeJson ----------------------------------------------------------------------

  function Defined(members: seq<JsMember>): (r: seq<JsMember>)
    ensures forall m :: m in r <==> m in members && !m.value.Undefined?
    ensures |r| <= |members|
  {
    if members == [] then []
    else (if members[0].value.Undefined? then [] else [members[0]]) + Defined(members[1..])
  }

  function InsertKey(m: JsMember, members: seq<JsMember>): (r: seq<JsMember>)
    ensures forall x :: x in r <==> x == m || x in members
  {
    if members == [] || Utf16Units.Less(m.key, members[0].key) then [m] + members
    else [members[0]] + InsertKey(m, members[1..])
  }

  function SortKeys(members: seq<JsMember>): (r: seq<JsMember>)
    ensures forall x :: x in r <==> x in members
  {
    if members == [] then [] else InsertKey(members[0], SortKeys(members[1..]))
  }

  function CanonicalizeJson(v: JsValue): string
    decreases v, 1, 0
  {
    match v
    case Undefined => ""
    case NotFinite => "null"
    case Plain(s) => Print(s)
    case JsArr(items) => "[" + CanonicalJsItems(items, v) + "]"
    case JsObj(members) => "{" + CanonicalJsMembers(SortKeys(Defined(members)), v) + "}"
  }

  function CanonicalJsItems(items: seq<JsValue>, whole: JsValue): string
    requires forall i :: 0 <= i < |items| ==> items[i] < whole
    decreases whole, 0, |items|
  {
    if items == [] then ""
    else CanonicalizeJson(items[0])
         + (if |items| == 1 then "" else "," + CanonicalJsItems(items[1..], whole))
  }

  function CanonicalJsMembers(members: seq<JsMember>, whole: JsValue): string
    requires forall m :: m in members ==> m.value < whole
    decreases whole, 0, |members|
  {
    if members == [] then ""
    else Quote(members[0].key) + ":" + CanonicalizeJson(members[0].value)
         + (if |members| == 1 then "" else "," + CanonicalJsMembers(members[1..], whole))
  }

  // ----- the JSON value a JavaScript value stands for -------------------------------------------

  function ToJson(v: JsValue): Value
    decreases v
  {
    match v
    case Undefined => Null
    case NotFinite => Null
    case Plain(s) => s
    case JsArr(items) => Arr(seq(|items|, i requires 0 <= i < |items| => ToJson(items[i])))
    case JsObj(members) =>
      var d := Defined(members);
      Obj(seq(|d|, i requires 0 <= i < |d| => assert d[i] in members; Member(d[i].key, ToJson(d[i].value))))
  }

  ghost predicate Renders(ms: seq<Member>, js: seq<JsMember>) {
    |ms| == |js| && forall i :: 0 <= i < |js| ==> ms[i] == Member(js[i].key, ToJson(js[i].value))
  }

  lemma {:induction false} InsertRenders(m: JsMember, js: seq<JsMember>, ms: seq<Member>)
    requires Renders(ms, js)
    ensures Renders(Insert(Utf16Units, Member(m.key, ToJson(m.value)), ms), InsertKey(m, js))
  {
    hide ToJson;
    hide Order.Less;
    if js != [] && !Utf16Units.Less(m.key, js[0].key) {
      InsertRenders(m, js[1..], ms[1..]);
    }
  }

  lemma {:induction false} SortRenders(js: seq<JsMember>, ms: seq<Member>)
    requires Renders(ms, js)
    ensures Renders(Sort(Utf16Units, ms), SortKeys(js))
  {
    hide ToJson;
    if js != [] {
      SortRenders(js[1..], ms[1..]);
      InsertRenders(js[0], SortKeys(js[1..]), Sort(Utf16Units, ms[1..]));
    }
  }

  lemma {:induction false} DefinedDistinct(members: seq<JsMember>)
    requires forall i, j :: 0 <= i < j < |members| ==> members[i].key != members[j].key
    ensures forall i, j :: 0 <= i < j < |Defined(members)| ==> Defined(members)[i].key != Defined(members)[j].key
  {
    if members != [] {
      DefinedDistinct(members[1..]);
      forall j | 0 <= j < |Defined(members[1..])| ensures Defined(members[1..])[j].key != members[0].key {
        assert Defined(members[1..])[j] in members[1..];
      }
    }
  }

  lemma {:induction false} ToJsonWellFormed(v: JsValue)
    requires JsonLike(v)
    ensures WellFormed(ToJson(v))
    decreases v
  {
    match v {
      case JsArr(items) =>
        forall i | 0 <= i < |items| ensures WellFormed(ToJson(items[i])) { ToJsonWellFormed(items[i]); }
      case JsObj(members) =>
        DefinedDistinct(members);
        var d := Defined(members);
        forall i | 0 <= i < |d| ensures WellFormed(ToJson(d[i].value)) {
          assert d[i] in members;
          ToJsonWellFormed(d[i].value);
        }
      case _ =>
    }
  }

  /** The JavaScript text is the canonical text of the JSON value, members dropped and all. */
  lemma {:induction false} CanonicalizeJsonIsCanonical(v: JsValue)
    requires JsonLike(v) && !v.Undefined?
    ensures CanonicalizeJson(v) == Canonicalize(Utf16Units, ToJson(v))
    decreases v, 1, 0
  {
    match v {
      case JsArr(items) => ItemsCanonical(items, ToJson(v).items, v, ToJson(v));
      case JsObj(members) =>
        hide SortKeys, Sort, Defined, CanonicalJsMembers, CanonicalMembers;
        SortRenders(Defined(members), ToJson(v).members);
        MembersCanonical(SortKeys(Defined(members)), Sort(Utf16Units, ToJson(v).members), v, ToJson(v));
      case _ =>
    }
  }

  lemma {:induction false} ItemsCanonical(js: seq<JsValue>, xs: seq<Value>, whole: JsValue, target: Value)
    requires |js| == |xs| && forall i :: 0 <= i < |js| ==> js[i] < whole && xs[i] < target
    requires forall i :: 0 <= i < |js| ==> !js[i].Undefined? && JsonLike(js[i]) && xs[i] == ToJson(js[i])
    ensures CanonicalJsItems(js, whole) == CanonicalItems(Utf16Units, xs, target)
    decreases whole, 0, |js|
  {
    hide ToJson;
    hide CanonicalizeJson;
    hide Canonicalize;
    if js != [] {
      CanonicalizeJsonIsCanonical(js[0]);
      ItemsCanonical(js[1..], xs[1..], whole, target);
    }
  }

  lemma {:induction false} MembersCanonical(js: seq<JsMember>, ms: seq<Member>, whole: JsValue, target: Value)
    requires Renders(ms, js)
    requires forall m :: m in js ==> m.value < whole
    requires forall m :: m in ms ==> m.value < target
    requires forall m :: m in js ==> !m.value.Undefined? && JsonLike(m.value)
    ensures CanonicalJsMembers(js, whole) == CanonicalMembers(Utf16Units, ms, target)
    decreases whole, 0, |js|
  {
    hide ToJson;
    hide CanonicalizeJson;
    hide Canonicalize;
    hide JsonLike;
    if js != [] {
      CanonicalizeJsonIsCanonical(js[0].value);
      MembersCanonical(js[1..], ms[1..], whole, target);
    }
  }

  /** Two values without undefined items print alike exactly when they are the same JSON value up to
      member order and undefined members. */
  lemma CanonicalizeJsonDecides(v: JsValue, w: JsValue)
    requires JsonLike(v) && JsonLike(w) && !v.Undefined? && !w.Undefined?
    ensures CanonicalizeJson(v) == CanonicalizeJson(w) <==> Same(ToJson(v), ToJson(w))
  {
    CanonicalizeJsonIsCanonical(v);
    CanonicalizeJsonIsCanonical(w);
    ToJsonWellFormed(v);
    ToJsonWellFormed(w);
    CanonicalizeDecidesSame(Utf16Units, ToJson(v), ToJson(w));
  }

  /** Without that condition it fails: an array of one undefined item prints as the empty array. */
  lemma UndefinedItemCollides()
    ensures var v, w := JsArr([Undefined]), JsArr([]);
            && CanonicalizeJson(v) == CanonicalizeJson(w)
            && !Same(ToJson(v), ToJson(w))
  {
    var v, w := JsArr([Undefined]), JsArr([]);
    assert CanonicalizeJson(Undefined) == "";
    assert CanonicalJsItems([Undefined], v) == "";
    assert |ToJson(v).items| == 1;
  }

  // ----- undefined items ------------------------------------------------------------------------

  /** What the JavaScript object model guarantees of any value. */
  predicate JsWellFormed(v: JsValue)
    decreases v
  {
    match v
    case Plain(s) => !s.Arr? && !s.Obj? && WellFormed(s)
    case JsArr(items) => forall i :: 0 <= i < |items| ==> JsWellFormed(items[i])
    case JsObj(members) =>
      && (forall i, j :: 0 <= i < j < |members| ==> members[i].key != members[j].key)
      && (forall i :: 0 <= i < |members| ==> JsWellFormed(members[i].value))
    case _ => true
  }

  /** Some array somewhere in the value holds an undefined item. */
  predicate Holed(v: JsValue)
    decreases v
  {
    match v
    case JsArr(items) => exists i :: 0 <= i < |items| && (items[i].Undefined? || Holed(items[i]))
    case JsObj(members) => exists i :: 0 <= i < |members| && Holed(members[i].value)
    case _ => false
  }

  lemma {:induction false} JsonLikeIs(v: JsValue)
    ensures JsonLike(v) <==> JsWellFormed(v) && !Holed(v)
    decreases v
  {
    match v {
      case JsArr(items) =>
        forall i | 0 <= i < |items| ensures JsonLike(items[i]) <==> JsWellFormed(items[i]) && !Holed(items[i]) {
          JsonLikeIs(items[i]);
        }
      case JsObj(members) =>
        forall i | 0 <= i < |members|
          ensures JsonLike(members[i].value) <==> JsWellFormed(members[i].value) && !Holed(members[i].value)
        {
          JsonLikeIs(members[i].value);
        }
      case _ =>
    }
  }

  /** The value with every undefined item replaced by the null it stands for. */
  function Filled(v: JsValue): (r: JsValue)
    ensures r.Undefined? <==> v.Undefined?
    decreases v
  {
    match v
    case JsArr(items) =>
      JsArr(seq(|items|, i requires 0 <= i < |items| => if items[i].Undefined? then Plain(Null) else Filled(items[i])))
    case JsObj(members) =>
      JsObj(seq(|members|, i requires 0 <= i < |members| => JsMember(members[i].key, Filled(members[i].value))))
    case _ => v
  }

  ghost predicate Fills(filled: seq<JsMember>, js: seq<JsMember>) {
    |filled| == |js| && forall i :: 0 <= i < |js| ==> filled[i] == JsMember(js[i].key, Filled(js[i].value))
  }

  lemma {:induction false} DefinedFills(filled: seq<JsMember>, js: seq<JsMember>)
    requires Fills(filled, js)
    ensures Fills(Defined(filled), Defined(js))
  {
    hide Filled;
    if js != [] {
      DefinedFills(filled[1..], js[1..]);
      FillsFirst(filled[0], Defined(filled[1..]), js[0], Defined(js[1..]));
    }
  }

  lemma FillsFirst(m: JsMember, filled: seq<JsMember>, j: JsMember, js: seq<JsMember>)
    requires Fills(filled, js) && m == JsMember(j.key, Filled(j.value))
    ensures Fills([m] + filled, [j] + js)
  {
    hide Filled;
  }

  lemma {:induction false} InsertFills(m: JsMember, filled: seq<JsMember>, j: JsMember, js: seq<JsMember>)
    requires Fills(filled, js) && m == JsMember(j.key, Filled(j.value))
    ensures Fills(InsertKey(m, filled), InsertKey(j, js))
  {
    hide Filled;
    hide Order.Less;
    if js == [] || Utf16Units.Less(j.key, js[0].key) {
      FillsFirst(m, filled, j, js);
    } else {
      InsertFills(m, filled[1..], j, js[1..]);
      FillsFirst(filled[0], InsertKey(m, filled[1..]), js[0], InsertKey(j, js[1..]));
    }
  }

  lemma {:induction false} SortFills(filled: seq<JsMember>, js: seq<JsMember>)
    requires Fills(filled, js)
    ensures Fills(SortKeys(filled), SortKeys(js))
  {
    hide Filled;
    if js != [] {
      SortFills(filled[1..], js[1..]);
      InsertFills(filled[0], SortKeys(filled[1..]), js[0], SortKeys(js[1..]));
    }
  }

  lemma {:induction false} FilledIsJsonLike(v: JsValue)
    requires JsWellFormed(v)
    ensures JsonLike(Filled(v))
    decreases v
  {
    match v {
      case JsArr(items) =>
        forall i | 0 <= i < |items| ensures JsonLike(Filled(v).items[i]) {
          if !items[i].Undefined? {
            FilledIsJsonLike(items[i]);
          }
        }
      case JsObj(members) =>
        forall i | 0 <= i < |members| ensures JsonLike(Filled(v).members[i].value) {
          FilledIsJsonLike(members[i].value);
        }
      case _ =>
    }
  }

  lemma {:induction false} FilledIsTheSameJson(v: JsValue)
    ensures ToJson(Filled(v)) == ToJson(v)
    decreases v
  {
    match v {
      case JsArr(items) =>
        forall i | 0 <= i < |items| ensures ToJson(Filled(v).items[i]) == ToJson(items[i]) {
          if !items[i].Undefined? {
            FilledIsTheSameJson(items[i]);
          }
        }
        assert ToJson(Filled(v)).items == ToJson(v).items;
      case JsObj(members) =>
        var filled := Filled(v).members;
        DefinedFills(filled, members);
        var d, e := Defined(filled), Defined(members);
        forall i | 0 <= i < |e| ensures ToJson(d[i].value) == ToJson(e[i].value) {
          assert e[i] in members;
          FilledIsTheSameJson(e[i].value);
        }
        assert ToJson(Filled(v)).members == ToJson(v).members;
      case _ =>
    }
  }

  /** Filling only ever lengthens the text, and does so wherever there is a hole. */
  lemma {:induction false} FilledIsLonger(v: JsValue)
    ensures |CanonicalizeJson(v)| <= |CanonicalizeJson(Filled(v))|
    ensures Holed(v) ==> |CanonicalizeJson(v)| < |CanonicalizeJson(Filled(v))|
    decreases v, 2, 0
  {
    match v {
      case JsArr(items) => ItemsLonger(items, Filled(v).items, v, Filled(v));
      case JsObj(members) => ObjectLonger(v, Filled(v).members);
      case _ =>
    }
  }

  lemma HoleIsSorted(v: JsValue)
    requires v.JsObj? && Holed(v)
    ensures exists m :: m in SortKeys(Defined(v.members)) && Holed(m.value)
  {
    var i :| 0 <= i < |v.members| && Holed(v.members[i].value);
    hide SortKeys, Defined;
    assert v.members[i] in SortKeys(Defined(v.members));
  }

  lemma {:induction false} ObjectLonger(v: JsValue, filled: seq<JsMember>)
    requires v.JsObj? && Filled(v) == JsObj(filled) && Fills(filled, v.members)
    ensures |CanonicalizeJson(v)| <= |CanonicalizeJson(Filled(v))|
    ensures Holed(v) ==> |CanonicalizeJson(v)| < |CanonicalizeJson(Filled(v))|
    decreases v, 1, 0
  {
    DefinedFills(filled, v.members);
    SortFills(Defined(filled), Defined(v.members));
    var sorted := SortKeys(Defined(v.members));
    hide SortKeys, Defined, Filled, CanonicalJsMembers, Fills, Holed;
    if Holed(v) {
      HoleIsSorted(v);
    }
    MembersLonger(sorted, SortKeys(Defined(filled)), v, Filled(v));
  }

  lemma {:induction false} ItemsLonger(js: seq<JsValue>, xs: seq<JsValue>, whole: JsValue, target: JsValue)
    requires |js| == |xs| && forall i :: 0 <= i < |js| ==> js[i] < whole && xs[i] < target
    requires forall i :: 0 <= i < |js| ==> xs[i] == if js[i].Undefined? then Plain(Null) else Filled(js[i])
    ensures |CanonicalJsItems(js, whole)| <= |CanonicalJsItems(xs, target)|
    ensures (exists i :: 0 <= i < |js| && (js[i].Undefined? || Holed(js[i])))
            ==> |CanonicalJsItems(js, whole)| < |CanonicalJsItems(xs, target)|
    decreases whole, 0, |js|
  {
    hide Filled, Holed;
    if js != [] {
      ItemLonger(js[0], xs[0]) by {
        if !js[0].Undefined? {
          FilledIsLonger(js[0]);
        }
      }
      hide CanonicalizeJson;
      ItemsLonger(js[1..], xs[1..], whole, target);
      assert forall i :: 1 <= i < |js| ==> js[i] == js[1..][i - 1];
    }
  }

  lemma ItemLonger(j: JsValue, x: JsValue)
    requires x == if j.Undefined? then Plain(Null) else Filled(j)
    requires !j.Undefined? ==> |CanonicalizeJson(j)| <= |CanonicalizeJson(Filled(j))|
    requires !j.Undefined? && Holed(j) ==> |CanonicalizeJson(j)| < |CanonicalizeJson(Filled(j))|
    ensures |CanonicalizeJson(j)| <= |CanonicalizeJson(x)|
    ensures j.Undefined? || Holed(j) ==> |CanonicalizeJson(j)| < |CanonicalizeJson(x)|
  {
    assert Print(Null) == "null";
  }

  lemma {:induction false} MembersLonger(js: seq<JsMember>, ms: seq<JsMember>, whole: JsValue, target: JsValue)
    requires Fills(ms, js)
    requires (forall m :: m in js ==> m.value < whole) && (forall m :: m in ms ==> m.value < target)
    ensures |CanonicalJsMembers(js, whole)| <= |CanonicalJsMembers(ms, target)|
    ensures (exists m :: m in js && Holed(m.value)) ==> |CanonicalJsMembers(js, whole)| < |CanonicalJsMembers(ms, target)|
    decreases whole, 0, |js|
  {
    hide Filled, Holed, CanonicalizeJson, Quote;
    if js != [] {
      FilledIsLonger(js[0].value);
      MembersLonger(js[1..], ms[1..], whole, target);
      assert forall m :: m in js ==> m == js[0] || m in js[1..];
    }
  }

  /** A JavaScript value is told apart from every proper JSON value by its text exactly when no array in it holds an
      undefined item. */
  lemma DecidesExactlyWithoutHoles(v: JsValue)
    requires JsWellFormed(v) && !v.Undefined?
    ensures (forall w :: JsonLike(w) && !w.Undefined?
               ==> (CanonicalizeJson(v) == CanonicalizeJson(w) <==> Same(ToJson(v), ToJson(w))))
            <==> !Holed(v)
  {
    hide JsonLike, JsWellFormed, CanonicalizeJson, ToJson, Same, Holed;
    JsonLikeIs(v);
    if Holed(v) {
      var w := Filled(v);
      FilledIsJsonLike(v);
      FilledIsTheSameJson(v);
      FilledIsLonger(v);
      CanonicalizeJsonDecides(w, w);
    } else {
      forall w | JsonLike(w) && !w.Undefined?
        ensures CanonicalizeJson(v) == CanonicalizeJson(w) <==> Same(ToJson(v), ToJson(w))
      {
        CanonicalizeJsonDecides(v, w);
      }
    }
  }

  // ----- signing and verification ---------------------------------------------------------------

  /** SHA-256 and HMAC-SHA256, read as content equality. */
  datatype Digest = Sha256(content: string)
  datatype Mac = HmacSha256(key: string, content: string)

  datatype Algorithm = SignedHmac | UnsignedSha
  datatype Integrity = Integrity(algorithm: Algorithm, canonicalSha256: Digest, signature: Option<Mac>)

  datatype Verification = Verification(intact: bool, authenticated: bool)

  const MIN_SECRET_LENGTH := 32

  /** A dedicated evidence key, already trimmed; absent when the variable is unset. */
  predicate UsableSecret(secret: Option<string>) {
    && secret.Some?
    && |secret.value| >= MIN_SECRET_LENGTH
    && forall c :: c in secret.value ==> c !in "\r\n\0"
  }

  function ComputeIntegrity(body: JsValue, secret: Option<string>): Integrity {
    var canonical := CanonicalizeJson(body);
    if UsableSecret(secret)
    then Integrity(SignedHmac, Sha256(canonical), Some(HmacSha256(secret.value, canonical)))
    else Integrity(UnsignedSha, Sha256(canonical), None)
  }

  function VerifyIntegrity(body: JsValue, integrity: Option<Integrity>, secret: Option<string>): Verification {
    if integrity.None? then Verification(false, false)
    else
      var canonical := CanonicalizeJson(body);
      if Sha256(canonical) != integrity.value.canonicalSha256 then Verification(false, false)
      else if integrity.value.signature.None? then Verification(true, false)
      else if !UsableSecret(secret) then Verification(true, false)
      else Verification(true, HmacSha256(secret.value, canonical) == integrity.value.signature.value)
  }

  /** An exported bundle verifies exactly when the body read back is the body that was signed, up to
      member order and undefined members, and it authenticates exactly under the key it was signed
      with. */
  lemma ExportedBundleVerifies(body: JsValue, received: JsValue, signing: Option<string>, checking: Option<string>)
    requires body.JsObj? && JsonLike(body) && received.JsObj? && JsonLike(received)
    ensures var v := VerifyIntegrity(received, Some(ComputeIntegrity(body, signing)), checking);
            && (v.intact <==> Same(ToJson(body), ToJson(received)))
            && (v.authenticated <==> v.intact && UsableSecret(signing) && checking == signing)
  {
    CanonicalizeJsonDecides(body, received);
  }

  /** An integrity block authenticates a body exactly when it is the block signed over that body with the checking
      key, which must be usable. */
  lemma AuthenticatedExactlyWhenSigned(body: JsValue, integrity: Integrity, checking: Option<string>)
    ensures VerifyIntegrity(body, Some(integrity), checking).authenticated
            <==> UsableSecret(checking) && integrity.(algorithm := SignedHmac) == ComputeIntegrity(body, checking)
  {
    hide CanonicalizeJson;
  }

  /** So one block authenticates two bodies exactly when they are the same up to member order and undefined
      members. */
  lemma AuthenticatedMeansSigned(received: JsValue, integrity: Integrity, checking: Option<string>, body: JsValue)
    requires received.JsObj? && JsonLike(received) && body.JsObj? && JsonLike(body)
    requires VerifyIntegrity(received, Some(integrity), checking).authenticated
    ensures VerifyIntegrity(body, Some(integrity), checking).authenticated <==> Same(ToJson(body), ToJson(received))
  {
    CanonicalizeJsonDecides(body, received);
    hide CanonicalizeJson, Same, ToJson, JsonLike, VerifyIntegrity, UsableSecret;
    AuthenticatedExactlyWhenSigned(body, integrity, checking);
    AuthenticatedExactlyWhenSigned(received, integrity, checking);
  }
}
