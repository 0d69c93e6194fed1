/** Which texts the bounded line reader hands on, and where it stops. */
module LineReading {
  import opened Wrappers
  import opened Text
  import opened Encoding
  import opened LineReader

  /** A line within the limit that holds a text. */
  predicate Holds(segment: seq<byte>, limit: nat, text: string) {
    |segment| <= limit && Encode(text) == Stripped(segment)
  }

  lemma SegmentHolds(segment: seq<byte>, limit: nat, text: string)
    ensures SegmentText(segment, limit) == Ok(text) <==> Holds(segment, limit, text)
    ensures SegmentText(segment, limit) == Err(TooLong) <==> |segment| > limit
    ensures SegmentText(segment, limit) == Err(NotText) <==> |segment| <= limit && Decode(Stripped(segment)).None?
    ensures SegmentText(segment, limit) != Err(NotAMessage)
  {
    DecodeInvertsEncode(Stripped(segment), text);
    hide Decode, Encode, Stripped;
  }

  /** The texts handed on, each from its line. */
  ghost predicate Picked(segments: seq<seq<byte>>, limit: nat, accepts: string -> bool, messages: seq<string>, places: seq<nat>, read: nat) {
    && read <= |segments| && |places| == |messages|
    && (forall k :: 0 <= k < |places| ==>
          places[k] < read && Holds(segments[places[k]], limit, messages[k]) && Trim(messages[k]) != "" && accepts(messages[k]))
    && (forall k, l :: 0 <= k < l < |places| ==> places[k] < places[l])
  }

  /** Every other line that was passed is blank. */
  ghost predicate Skipped(segments: seq<seq<byte>>, limit: nat, places: seq<nat>, read: nat) {
    && read <= |segments|
    && forall i :: 0 <= i < read && i !in places ==> exists text :: Holds(segments[i], limit, text) && Trim(text) == ""
  }

  /** Why the next line was not passed. */
  ghost predicate Stopped(segments: seq<seq<byte>>, limit: nat, accepts: string -> bool, failure: Option<Failure>, read: nat) {
    match failure
    case None => read == |segments|
    case Some(TooLong) => read < |segments| && |segments[read]| > limit
    case Some(NotText) => read < |segments| && |segments[read]| <= limit && forall text :: Encode(text) != Stripped(segments[read])
    case Some(NotAMessage) =>
      read < |segments| && exists text :: Holds(segments[read], limit, text) && Trim(text) != "" && !accepts(text)
  }

  /** What is handed on: `places` are the lines it comes from, and `read` is how many lines were passed. */
  ghost predicate HandedOn(segments: seq<seq<byte>>, limit: nat, accepts: string -> bool, r: Reading, places: seq<nat>, read: nat) {
    && Picked(segments, limit, accepts, r.messages, places, read)
    && Skipped(segments, limit, places, read)
    && Stopped(segments, limit, accepts, r.failure, read)
  }

  function Shifted(places: seq<nat>): (r: seq<nat>)
    ensures |r| == |places| && forall k :: 0 <= k < |r| ==> r[k] == places[k] + 1
  {
    seq(|places|, k requires 0 <= k < |places| => places[k] + 1)
  }

  lemma ShiftedHas(places: seq<nat>, i: nat)
    requires i in places
    ensures i + 1 in Shifted(places)
  {
    var k :| 0 <= k < |places| && places[k] == i;
    assert Shifted(places)[k] == i + 1;
  }

  lemma PicksLater(segments: seq<seq<byte>>, limit: nat, accepts: string -> bool, messages: seq<string>, places: seq<nat>, read: nat)
    requires segments != [] && Picked(segments[1..], limit, accepts, messages, places, read)
    ensures Picked(segments, limit, accepts, messages, Shifted(places), read + 1)
  {
    hide Holds, Trim;
    forall k | 0 <= k < |places| ensures segments[Shifted(places)[k]] == segments[1..][places[k]] {
    }
  }

  lemma PicksFirst(segments: seq<seq<byte>>, limit: nat, accepts: string -> bool, messages: seq<string>, places: seq<nat>, read: nat, text: string)
    requires segments != [] && Holds(segments[0], limit, text) && Trim(text) != "" && accepts(text)
    requires Picked(segments, limit, accepts, messages, Shifted(places), read + 1)
    ensures Picked(segments, limit, accepts, [text] + messages, [0] + Shifted(places), read + 1)
  {
    hide Holds, Trim;
  }

  lemma SkipsLater(segments: seq<seq<byte>>, limit: nat, places: seq<nat>, read: nat, all: seq<nat>)
    requires segments != [] && Skipped(segments[1..], limit, places, read)
    requires 0 in all || exists text :: Holds(segments[0], limit, text) && Trim(text) == ""
    requires forall i: nat :: i in places ==> i + 1 in all
    ensures Skipped(segments, limit, all, read + 1)
  {
    hide Holds, Trim;
    var rest := segments[1..];
    forall i | 0 <= i < read + 1 && i !in all ensures exists text :: Holds(segments[i], limit, text) && Trim(text) == "" {
      if i > 0 {
        assert i - 1 !in places && rest[i - 1] == segments[i];
      }
    }
  }

  lemma StopsLater(segments: seq<seq<byte>>, limit: nat, accepts: string -> bool, failure: Option<Failure>, read: nat)
    requires segments != [] && Stopped(segments[1..], limit, accepts, failure, read)
    ensures Stopped(segments, limit, accepts, failure, read + 1)
  {
    hide Holds, Trim, Encode, Stripped;
  }

  lemma AllShifted(places: seq<nat>)
    ensures forall i: nat :: i in places ==> i + 1 in Shifted(places)
  {
    forall i: nat | i in places ensures i + 1 in Shifted(places) {
      ShiftedHas(places, i);
    }
  }

  lemma PassedOver(segments: seq<seq<byte>>, limit: nat, accepts: string -> bool, r: Reading, places: seq<nat>, read: nat, text: string)
    requires segments != [] && Holds(segments[0], limit, text) && Trim(text) == ""
    requires HandedOn(segments[1..], limit, accepts, r, places, read)
    ensures HandedOn(segments, limit, accepts, r, Shifted(places), read + 1)
  {
    hide Holds, Trim, Picked, Skipped, Stopped;
    AllShifted(places);
    PicksLater(segments, limit, accepts, r.messages, places, read);
    SkipsLater(segments, limit, places, read, Shifted(places));
    StopsLater(segments, limit, accepts, r.failure, read);
  }

  lemma TakenFirst(segments: seq<seq<byte>>, limit: nat, accepts: string -> bool, r: Reading, places: seq<nat>, read: nat, text: string)
    requires segments != [] && Holds(segments[0], limit, text) && Trim(text) != "" && accepts(text)
    requires HandedOn(segments[1..], limit, accepts, r, places, read)
    ensures HandedOn(segments, limit, accepts, Reading([text] + r.messages, r.failure), [0] + Shifted(places), read + 1)
  {
    hide Holds, Trim, Picked, Skipped, Stopped;
    AllShifted(places);
    PicksLater(segments, limit, accepts, r.messages, places, read);
    PicksFirst(segments, limit, accepts, r.messages, places, read, text);
    assert ([0] + Shifted(places))[0] == 0;
    SkipsLater(segments, limit, places, read, [0] + Shifted(places));
    StopsLater(segments, limit, accepts, r.failure, read);
  }

  /** Reading hands on exactly the texts that are not blank of the lines before the first that is too long, not UTF-8 or
      no message, in order. */
  lemma {:induction false} ReadingHandsOn(segments: seq<seq<byte>>, limit: nat, accepts: string -> bool) returns (places: seq<nat>, read: nat)
    ensures HandedOn(segments, limit, accepts, Messages(segments, limit, accepts), places, read)
  {
    hide *;
    places, read := [], 0;
    if segments != [] {
      var text := SegmentText(segments[0], limit);
      if text.Err? {
        StopsAt(segments, limit, accepts, "");
      } else {
        SegmentHolds(segments[0], limit, text.value);
        BlankIs(text.value);
        if !Blank(text.value) && !accepts(text.value) {
          StopsAt(segments, limit, accepts, text.value);
        } else {
          var places', read' := ReadingHandsOn(segments[1..], limit, accepts);
          read := read' + 1;
          GoesOn(segments, limit, accepts, text.value);
          if Blank(text.value) {
            PassedOver(segments, limit, accepts, Messages(segments[1..], limit, accepts), places', read', text.value);
            places := Shifted(places');
          } else {
            TakenFirst(segments, limit, accepts, Messages(segments[1..], limit, accepts), places', read', text.value);
            places := [0] + Shifted(places');
          }
        }
      }
    } else {
      NothingToRead(limit, accepts);
    }
  }

  lemma BlankIs(text: string)
    ensures Blank(text) <==> Trim(text) == ""
  {
  }

  lemma NothingToRead(limit: nat, accepts: string -> bool)
    ensures HandedOn([], limit, accepts, Messages([], limit, accepts), [], 0)
  {
  }

  lemma GoesOn(segments: seq<seq<byte>>, limit: nat, accepts: string -> bool, text: string)
    requires segments != [] && SegmentText(segments[0], limit) == Ok(text) && (Blank(text) || accepts(text))
    ensures var rest := Messages(segments[1..], limit, accepts);
            Messages(segments, limit, accepts) == if Blank(text) then rest else Reading([text] + rest.messages, rest.failure)
  {
    hide SegmentText, Blank;
  }

  lemma StopsAt(segments: seq<seq<byte>>, limit: nat, accepts: string -> bool, text: string)
    requires segments != []
    requires SegmentText(segments[0], limit).Err? || (SegmentText(segments[0], limit) == Ok(text) && !Blank(text) && !accepts(text))
    ensures HandedOn(segments, limit, accepts, Messages(segments, limit, accepts), [], 0)
  {
    var stopped := Messages(segments, limit, accepts);
    SegmentHolds(segments[0], limit, text);
    forall t ensures Decode(Stripped(segments[0])).None? ==> Encode(t) != Stripped(segments[0]) {
      DecodeInvertsEncode(Stripped(segments[0]), t);
    }
    hide SegmentText, Encode, Decode, Stripped, Holds;
    assert stopped.messages == [];
  }
}
