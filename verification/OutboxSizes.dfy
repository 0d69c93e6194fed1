/** How the size of a spool line depends on the fields of its record, and what follows for replay. */
module OutboxSizes {
  import opened Wrappers
  import opened Text
  import opened Json
  import opened Spool
  import opened Outbox

  // ----- the size of an object is the sum over its members ------------------------------------------

  function MembersBytes(ms: seq<Member>): nat {
    if ms == [] then 0 else 1 + ByteLen(PrintMember(ms[0])) + MembersBytes(ms[1..])
  }

  lemma {:induction false} MembersBytesAppend(a: seq<Member>, b: seq<Member>)
    ensures MembersBytes(a + b) == MembersBytes(a) + MembersBytes(b)
  {
    hide PrintMember, ByteLen;
    if a == [] {
      assert a + b == b;
    } else {
      assert (a + b)[1..] == a[1..] + b;
      MembersBytesAppend(a[1..], b);
    }
  }

  lemma {:induction false} MoreMembersBytes(ms: seq<Member>)
    ensures ByteLen(MoreMembers(ms)) == MembersBytes(ms)
  {
    hide PrintMember;
    if ms != [] {
      MoreMembersBytes(ms[1..]);
      var more := MoreMembers(ms[1..]);
      hide MoreMembers;
      ByteLenAppend("," + PrintMember(ms[0]), more);
      ByteLenAppend(",", PrintMember(ms[0]));
      CommaBytes();
    }
  }

  lemma CommaBytes()
    ensures ByteLen(",") == ByteLen("{") == ByteLen("}") == 1
  {
    assert ByteLen("") == 0;
    assert ","[1..] == "" && "{"[1..] == "" && "}"[1..] == "";
  }

  lemma MoreIsComma(ms: seq<Member>)
    requires ms != []
    ensures MoreMembers(ms) == "," + PrintMembers(ms)
  {
    hide PrintMember;
  }

  lemma ObjectBytes(ms: seq<Member>)
    requires ms != []
    ensures ByteLen(Print(Obj(ms))) == 1 + MembersBytes(ms)
  {
    hide PrintMember, MoreMembers, ByteLen;
    var inner := PrintMembers(ms);
    CommaBytes();
    MoreMembersBytes(ms);
    MoreIsComma(ms);
    ByteLenAppend(",", inner);
    ByteLenAppend("{" + inner, "}");
    ByteLenAppend("{", inner);
  }

  function MemberBytes(key: string, v: Value): nat {
    1 + ByteLen(PrintMember(Member(key, v)))
  }

  function ErrorBytes(e: Option<string>): nat {
    match e
    case Some(error) => MemberBytes("last_error", Str(error))
    case None => 0
  }

  lemma LineBytesSum(r: SpoolRecord)
    ensures LineBytes(r) == 2 + MemberBytes("event_id", Str(r.eventId)) + MemberBytes("payload", Str(r.payload))
                            + MemberBytes("attempts", Num(Decimal(r.attempts)))
                            + MemberBytes("next_attempt_ms", Num(Decimal(r.nextAttemptMs)))
                            + ErrorBytes(r.lastError) + MemberBytes("created_ms", Num(Decimal(r.createdMs)))
  {
    hide PrintMember, ByteLen, Print;
    var a, b, c, d := Member("event_id", Str(r.eventId)), Member("payload", Str(r.payload)),
                      Member("attempts", Num(Decimal(r.attempts))), Member("next_attempt_ms", Num(Decimal(r.nextAttemptMs)));
    var e := if r.lastError.Some? then [Member("last_error", Str(r.lastError.value))] else [];
    var f := Member("created_ms", Num(Decimal(r.createdMs)));
    ObjectBytes([a, b, c, d] + e + [f]);
    MembersBytesAppend([a, b, c, d] + e, [f]);
    MembersBytesAppend([a, b, c, d], e);
    FourMembersBytes(a, b, c, d);
    OneMemberBytes(f);
    if r.lastError.Some? { OneMemberBytes(e[0]); }
  }

  lemma OneMemberBytes(a: Member)
    ensures MembersBytes([a]) == 1 + ByteLen(PrintMember(a))
  {
    hide PrintMember, ByteLen;
    assert [a][1..] == [];
  }

  lemma FourMembersBytes(a: Member, b: Member, c: Member, d: Member)
    ensures MembersBytes([a, b, c, d]) == 4 + ByteLen(PrintMember(a)) + ByteLen(PrintMember(b))
                                            + ByteLen(PrintMember(c)) + ByteLen(PrintMember(d))
  {
    hide PrintMember, ByteLen;
    OneMemberBytes(a); OneMemberBytes(b); OneMemberBytes(c); OneMemberBytes(d);
    MembersBytesAppend([a], [b]);
    MembersBytesAppend([a] + [b], [c]);
    MembersBytesAppend([a] + [b] + [c], [d]);
    assert [a] + [b] + [c] + [d] == [a, b, c, d];
  }

  // ----- numbers ------------------------------------------------------------------------------------

  lemma NumberMemberBytes(key: string, token: string)
    ensures MemberBytes(key, Num(token)) == 1 + ByteLen(Quote(key) + ":") + ByteLen(token)
  {
    hide Quote, ByteLen;
    assert Print(Num(token)) == token;
    ByteLenAppend(Quote(key) + ":", token);
  }

  lemma {:induction false} DigitsBytes(token: string)
    requires forall i :: 0 <= i < |token| ==> '0' <= token[i] <= '9'
    ensures ByteLen(token) == |token|
  {
    if token != "" { DigitsBytes(token[1..]); }
  }

  lemma ZeroIsShortest(key: string, n: nat)
    ensures MemberBytes(key, Num(Decimal(0))) <= MemberBytes(key, Num(Decimal(n)))
  {
    hide MemberBytes;
    NumberMemberBytes(key, Decimal(0));
    NumberMemberBytes(key, Decimal(n));
    DigitsBytes(Decimal(0));
    DigitsBytes(Decimal(n));
  }

  // ----- replay -------------------------------------------------------------------------------------

  lemma ResetShrinks(r: SpoolRecord, now: nat)
    requires r.createdMs != 0
    ensures LineBytes(Reset(r, now)) <= LineBytes(r)
  {
    hide MemberBytes, LineBytes, Decimal;
    LineBytesSum(r);
    LineBytesSum(Reset(r, now));
    ZeroIsShortest("attempts", r.attempts);
    ZeroIsShortest("next_attempt_ms", r.nextAttemptMs);
  }

  lemma {:induction false} ResetAllShrinks(records: seq<SpoolRecord>, now: nat)
    requires forall r :: r in records ==> r.createdMs != 0
    ensures TotalBytes(ResetAll(records, now)) <= TotalBytes(records)
  {
    hide LineBytes, Reset;
    if records != [] {
      ResetShrinks(records[0], now);
      ResetAllShrinks(records[1..], now);
      assert ResetAll(records, now)[1..] == ResetAll(records[1..], now);
    }
  }

  /** A replay that is not refused drops nothing exactly when the records fit as they are rewritten;
      the projection is made on the records as they were. Records that carry a creation time only get
      shorter, so for them it always holds. */
  lemma ReplayAppendsExactly(spool: seq<SpoolRecord>, selected: seq<SpoolRecord>, now: nat)
    requires selected != [] && !ReplayRefused(spool, selected)
    ensures Capped(spool + ResetAll(selected, now)) == spool + ResetAll(selected, now)
            <==> TotalBytes(spool) + TotalBytes(ResetAll(selected, now)) <= MAX_SPOOL_BYTES
    ensures (forall r :: r in selected ==> r.createdMs != 0)
            ==> Capped(spool + ResetAll(selected, now)) == spool + ResetAll(selected, now)
  {
    hide LineBytes, ResetAll, TotalBytes;
    var all := spool + ResetAll(selected, now);
    TotalBytesAppend(spool, selected);
    TotalBytesAppend(spool, ResetAll(selected, now));
    BoundedSplits(all, MAX_SPOOL_RECORDS, MAX_SPOOL_BYTES);
    if forall r :: r in selected ==> r.createdMs != 0 {
      ResetAllShrinks(selected, now);
    }
  }

  // ----- small records fit ----------------------------------------------------------------------------

  lemma TextMemberBound(key: string, s: string)
    ensures MemberBytes(key, Str(s)) <= 24 * |key| + 24 * |s| + 21
  {
    hide ByteLen, Escape;
    EscapeBound(key);
    EscapeBound(s);
    assert Print(Str(s)) == Quote(s);
    ByteLenBound(PrintMember(Member(key, Str(s))));
  }

  lemma NumberMemberBound(key: string, token: string)
    ensures MemberBytes(key, Num(token)) <= 24 * |key| + 4 * |token| + 13
  {
    hide ByteLen, Escape;
    EscapeBound(key);
    assert Print(Num(token)) == token;
    ByteLenBound(PrintMember(Member(key, Num(token))));
  }

  lemma SmallRecordBytes(r: SpoolRecord)
    requires |r.eventId| <= 1 && r.payload == "" && r.attempts < 10 && r.nextAttemptMs < 10
    requires r.lastError.None? && r.createdMs < 10
    ensures LineBytes(r) < 1_300
  {
    LineBytesSum(r);
    TextMemberBound("event_id", r.eventId);
    TextMemberBound("payload", r.payload);
    NumberMemberBound("attempts", Decimal(r.attempts));
    NumberMemberBound("next_attempt_ms", Decimal(r.nextAttemptMs));
    NumberMemberBound("created_ms", Decimal(r.createdMs));
    hide MemberBytes, LineBytes;
  }

  // ----- a record without a creation time can grow past the cap --------------------------------------

  function Xs(n: nat): string {
    if n == 0 then "" else ['x'] + Xs(n - 1)
  }

  lemma {:induction false} XsBytes(n: nat)
    ensures ByteLen(Escape(Xs(n))) == n
  {
    if n > 0 {
      XsBytes(n - 1);
      EscapeX(Xs(n - 1));
      hide Escape, ByteLen;
      ByteLenAppend("x", Escape(Xs(n - 1)));
    }
  }

  lemma EscapeX(s: string)
    ensures Escape(['x'] + s) == "x" + Escape(s) && ByteLen("x") == 1
  {
    assert (['x'] + s)[1..] == s && "x"[1..] == "";
  }

  lemma PayloadBytes(s: string)
    ensures MemberBytes("payload", Str(s)) == MemberBytes("payload", Str("")) + ByteLen(Escape(s))
  {
    hide ByteLen, Escape;
    var head := Quote("payload") + ":\"";
    assert PrintMember(Member("payload", Str(s))) == head + (Escape(s) + "\"");
    assert PrintMember(Member("payload", Str(""))) == head + (Escape("") + "\"");
    ByteLenAppend(head, Escape(s) + "\"");
    ByteLenAppend(head, Escape("") + "\"");
    ByteLenAppend(Escape(s), "\"");
    ByteLenAppend(Escape(""), "\"");
    assert Escape("") == "" by { EscapeEmpty(); }
    assert ByteLen("") == 0 by { ByteLenEmpty(); }
  }

  lemma EscapeEmpty()
    ensures Escape("") == ""
  {
  }

  lemma ByteLenEmpty()
    ensures ByteLen("") == 0
  {
  }

  function Undated(n: nat): SpoolRecord {
    SpoolRecord("e", Xs(n), 0, 0, None, 0)
  }

  lemma UndatedBytes(n: nat, now: nat)
    requires 10 <= now < 100
    ensures LineBytes(Undated(n)) == LineBytes(Undated(0)) + n
    ensures LineBytes(Reset(Undated(n), now)) == LineBytes(Undated(n)) + 1
  {
    hide MemberBytes, LineBytes, Xs, Escape, ByteLen;
    LineBytesSum(Undated(n));
    LineBytesSum(Undated(0));
    LineBytesSum(Reset(Undated(n), now));
    PayloadBytes(Xs(n));
    PayloadBytes(Xs(0));
    XsBytes(n);
    XsBytes(0);
    NumberMemberBytes("created_ms", Decimal(0));
    NumberMemberBytes("created_ms", Decimal(now));
    DigitsBytes(Decimal(0));
    DigitsBytes(Decimal(now));
    assert |Decimal(now)| == 2 && |Decimal(0)| == 1;
  }

  lemma UndatedSmall()
    ensures LineBytes(Undated(0)) < 1_300
  {
    SmallRecordBytes(Undated(0));
  }

  /** One undated record that exactly fills the spool passes the projection, gains a digit, and is
      dropped: the replay reports one record replayed and leaves none anywhere. */
  lemma UndatedReplayLoses()
    ensures LineBytes(Undated(0)) <= MAX_SPOOL_BYTES
    ensures var r := Undated(MAX_SPOOL_BYTES - LineBytes(Undated(0)));
            !ReplayRefused([], [r]) && Capped([] + ResetAll([r], 10)) == []
  {
    hide LineBytes, Undated, Reset;
    UndatedSmall();
    var r := Undated(MAX_SPOOL_BYTES - LineBytes(Undated(0)));
    UndatedBytes(MAX_SPOOL_BYTES - LineBytes(Undated(0)), 10);
    OneRecord(r);
    OneRecord(Reset(r, 10));
    assert [] + [r] == [r] && [] + ResetAll([r], 10) == [Reset(r, 10)];
  }

  lemma OneRecord(r: SpoolRecord)
    ensures TotalBytes([r]) == LineBytes(r)
    ensures LineBytes(r) > MAX_SPOOL_BYTES ==> Capped([r]) == []
  {
    hide LineBytes;
    assert [r][1..] == [];
    if LineBytes(r) > MAX_SPOOL_BYTES {
      assert !Fits([r], MAX_SPOOL_RECORDS, MAX_SPOOL_BYTES);
      assert Capped([r]) == Bounded([r][1..], MAX_SPOOL_RECORDS, MAX_SPOOL_BYTES);
    }
  }
}
