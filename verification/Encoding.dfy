/** UTF-8 both ways: the check that a line or a chunk is text (`String::from_utf8`, `str::from_utf8`). */
module Encoding {
  import opened Wrappers
  import opened Text

  type byte = b: int | 0 <= b < 256

  function Encode(s: string): seq<nat> {
    if s == "" then [] else Utf8(s[0]) + Encode(s[1..])
  }

  predicate Continues(b: byte) {
    0x80 <= b < 0xC0
  }

  predicate IsScalar(n: int) {
    0 <= n < 0xD800 || 0xE000 <= n < 0x11_0000
  }

  /** One more continuation byte on a number. */
  function Pack(n: int, b: int): int {
    n * 0x40 + (b - 0x80)
  }

  function Scalar(n: int, from: int, length: nat): Option<(char, nat)> {
    if n >= from && IsScalar(n) then Some((n as char, length)) else None
  }

  /** The first character of a text and how many bytes it takes; neither overlong forms nor surrogates. */
  function DecodeFirst(b: seq<byte>): (r: Option<(char, nat)>)
    ensures r.Some? ==> 0 < r.value.1 <= |b|
  {
    if b == [] then None
    else
      var lead: int := b[0];
      if lead < 0x80 then Some((lead as char, 1))
      else if 0xC0 <= lead < 0xE0 && |b| >= 2 && Continues(b[1]) then
        Scalar(Pack(lead - 0xC0, b[1]), 0x80, 2)
      else if 0xE0 <= lead < 0xF0 && |b| >= 3 && Continues(b[1]) && Continues(b[2]) then
        Scalar(Pack(Pack(lead - 0xE0, b[1]), b[2]), 0x800, 3)
      else if 0xF0 <= lead && |b| >= 4 && Continues(b[1]) && Continues(b[2]) && Continues(b[3]) then
        Scalar(Pack(Pack(Pack(lead - 0xF0, b[1]), b[2]), b[3]), 0x1_0000, 4)
      else None
  }

  function Decode(b: seq<byte>): Option<string> {
    if b == [] then Some("")
    else
      var first := DecodeFirst(b);
      if first.None? then None
      else
        var rest := Decode(b[first.value.1..]);
        if rest.None? then None else Some([first.value.0] + rest.value)
  }

  lemma PackSplits(n: nat, b: byte)
    requires Continues(b)
    ensures Pack(n, b) >= 0 && Pack(n, b) / 0x40 == n && Pack(n, b) % 0x40 == b - 0x80
  {
  }

  lemma PackJoins(n: nat)
    ensures Pack(n / 0x40, 0x80 + n % 0x40) == n
  {
  }

  lemma Halves(n: nat)
    ensures n / 0x40 / 0x40 == n / 0x1000 && n / 0x1000 / 0x40 == n / 0x4_0000
  {
  }

  lemma FirstEncodes(b: seq<byte>)
    requires DecodeFirst(b).Some?
    ensures Utf8(DecodeFirst(b).value.0) == b[..DecodeFirst(b).value.1]
  {
    var lead: int := b[0];
    if 0x80 <= lead < 0xE0 {
      PackSplits(lead - 0xC0, b[1]);
    } else if 0xE0 <= lead < 0xF0 {
      PackSplits(lead - 0xE0, b[1]);
      PackSplits(Pack(lead - 0xE0, b[1]), b[2]);
      Halves(Pack(Pack(lead - 0xE0, b[1]), b[2]));
    } else if lead >= 0xF0 {
      PackSplits(lead - 0xF0, b[1]);
      PackSplits(Pack(lead - 0xF0, b[1]), b[2]);
      var n := Pack(Pack(lead - 0xF0, b[1]), b[2]);
      PackSplits(n, b[3]);
      Halves(Pack(n, b[3]));
    }
  }

  lemma EncodedFirst(c: char, b: seq<byte>)
    requires Utf8(c) <= b
    ensures DecodeFirst(b) == Some((c, |Utf8(c)|))
  {
    var n := c as int;
    assert IsScalar(n);
    assert forall i :: 0 <= i < |Utf8(c)| ==> b[i] == Utf8(c)[i];
    PackJoins(n);
    PackJoins(n / 0x40);
    PackJoins(n / 0x1000);
    Halves(n);
  }

  /** Bytes decode to a text exactly when they are its encoding. */
  lemma {:induction false} DecodeInvertsEncode(b: seq<byte>, s: string)
    ensures Decode(b) == Some(s) <==> Encode(s) == b
    decreases |b|
  {
    hide DecodeFirst, Utf8;
    if b != [] {
      var first := DecodeFirst(b);
      if s != "" && Encode(s) == b {
        EncodedFirst(s[0], b);
        DecodeInvertsEncode(b[first.value.1..], s[1..]);
        assert s == [s[0]] + s[1..];
      } else if first.Some? && s != "" {
        FirstEncodes(b);
        DecodeInvertsEncode(b[first.value.1..], s[1..]);
        assert b == b[..first.value.1] + b[first.value.1..];
      }
    }
  }

  lemma {:induction false} EncodeAppend(s: string, t: string)
    ensures Encode(s + t) == Encode(s) + Encode(t)
  {
    hide Utf8;
    if s == "" {
      assert s + t == t;
    } else {
      assert (s + t)[1..] == s[1..] + t;
      EncodeAppend(s[1..], t);
    }
  }

  lemma {:induction false} EncodeBytes(s: string)
    ensures |Encode(s)| == ByteLen(s)
    ensures forall i :: 0 <= i < |Encode(s)| ==> Encode(s)[i] < 256
  {
    if s != "" { EncodeBytes(s[1..]); }
  }

  lemma {:induction false} EncodedPrefix(t: string, s: string)
    requires Encode(t) <= Encode(s)
    ensures t <= s
  {
    hide DecodeFirst, Utf8;
    if t != "" {
      EncodeBytes(s);
      EncodeBytes(t);
      if s != "" {
        EncodedFirst(t[0], Encode(s));
        EncodedFirst(s[0], Encode(s));
        RestIsPrefix(Utf8(t[0]), Encode(t[1..]), Encode(s[1..]));
        EncodedPrefix(t[1..], s[1..]);
        assert t == [t[0]] + t[1..] && s == [s[0]] + s[1..];
      }
    }
  }

  lemma RestIsPrefix(head: seq<nat>, a: seq<nat>, b: seq<nat>)
    requires head + a <= head + b
    ensures a <= b
  {
    assert a == (head + a)[|head|..] && b == (head + b)[|head|..];
  }

  /** The first bytes of a text are text by themselves exactly when they end at a character boundary: a chunk that
      stops inside a character is refused. */
  lemma CutIsTextWhen(s: string, cut: seq<byte>)
    requires cut <= Encode(s)
    ensures Decode(cut).Some? <==> exists n :: 0 <= n <= |s| && cut == Encode(s[..n])
  {
    hide Decode;
    if Decode(cut).Some? {
      var t := Decode(cut).value;
      DecodeInvertsEncode(cut, t);
      EncodedPrefix(t, s);
      assert s[..|t|] == t;
    }
    if n :| 0 <= n <= |s| && cut == Encode(s[..n]) {
      DecodeInvertsEncode(cut, s[..n]);
    }
  }
}
