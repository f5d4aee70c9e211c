/** Percent-encoding as the browser does it: `encodeURIComponent` (used for
    the avatar seed) and the `application/x-www-form-urlencoded`
    serialiser behind `URLSearchParams.prototype.toString` (used for the
    statistics query). Both encode a character as the `%XX` escapes of its
    UTF-8 bytes. A decoder is given beside them so that the encoding can be
    shown to lose nothing. */
module Uri {
  import opened Common

  type Byte = x: int | 0 <= x < 256

  // ---------------------------------------------------------------------
  // UTF-8
  // ---------------------------------------------------------------------

  predicate IsContinuation(b: Byte) { 0x80 <= b < 0xC0 }

  /** The UTF-8 encoding of one Unicode scalar value. */
  function Utf8(c: char): (bs: seq<Byte>)
    ensures 1 <= |bs| <= 4
    ensures |bs| == 1 <==> c as int < 0x80
    ensures forall i :: 1 <= i < |bs| ==> IsContinuation(bs[i])
  {
    var v := c as int;
    if v < 0x80 then [v]
    else if v < 0x800 then [0xC0 + v / 64, 0x80 + v % 64]
    else if v < 0x1_0000 then [0xE0 + v / 4096, 0x80 + (v / 64) % 64, 0x80 + v % 64]
    else [0xF0 + v / 262144, 0x80 + (v / 4096) % 64, 0x80 + (v / 64) % 64, 0x80 + v % 64]
  }

  /** The length of the UTF-8 sequence a leading byte announces; 0 for a
      byte that cannot start one. */
  function SequenceLength(b: Byte): nat {
    if b < 0x80 then 1
    else if 0xC0 <= b < 0xE0 then 2
    else if 0xE0 <= b < 0xF0 then 3
    else if 0xF0 <= b < 0xF8 then 4
    else 0
  }

  /** The code point of one complete UTF-8 sequence, if it is a scalar
      value. */
  function DecodeSequence(bs: seq<Byte>): Option<char>
    requires 1 <= |bs| <= 4
  {
    var v := SequenceValue(bs);
    if 0 <= v < 0xD800 || 0xE000 <= v < 0x11_0000 then Some(v as char) else None
  }

  /** The number the payload bits of a UTF-8 sequence spell. */
  function SequenceValue(bs: seq<Byte>): int
    requires 1 <= |bs| <= 4
  {
    var b0: int := bs[0];
    if |bs| == 1 then b0
    else
      var b1: int := bs[1];
      if |bs| == 2 then (b0 - 0xC0) * 64 + (b1 - 0x80)
      else
        var b2: int := bs[2];
        if |bs| == 3 then (b0 - 0xE0) * 4096 + (b1 - 0x80) * 64 + (b2 - 0x80)
        else
          var b3: int := bs[3];
          (b0 - 0xF0) * 262144 + (b1 - 0x80) * 4096 + (b2 - 0x80) * 64 + (b3 - 0x80)
  }

  function Utf8Encode(s: string): seq<Byte> {
    if s == [] then [] else Utf8(s[0]) + Utf8Encode(s[1..])
  }

  function Utf8Decode(bs: seq<Byte>): Option<string>
    decreases |bs|
  {
    if bs == [] then Some([])
    else
      var n := SequenceLength(bs[0]);
      if n == 0 || |bs| < n then None
      else
        match DecodeSequence(bs[..n])
        case None => None
        case Some(c) =>
          match Utf8Decode(bs[n..])
          case None => None
          case Some(rest) => Some([c] + rest)
  }

  lemma Utf8Char(c: char)
    ensures SequenceLength(Utf8(c)[0]) == |Utf8(c)|
    ensures DecodeSequence(Utf8(c)) == Some(c)
  {
    var v := c as int;
    if v < 0x80 {
    } else if v < 0x800 {
      TwoByteValue(v);
    } else if v < 0x1_0000 {
      ThreeByteValue(v);
    } else {
      FourByteValue(v);
    }
  }

  /** The two-byte sequence of `v` spells `v`. */
  lemma TwoByteValue(v: int)
    requires 0x80 <= v < 0x800
    ensures SequenceValue([0xC0 + v / 64, 0x80 + v % 64]) == v
  {
    assert (v / 64) * 64 + v % 64 == v;
  }

  /** The three-byte sequence of `v` spells `v`. */
  lemma ThreeByteValue(v: int)
    requires 0x800 <= v < 0x1_0000
    ensures SequenceValue([0xE0 + v / 4096, 0x80 + (v / 64) % 64, 0x80 + v % 64]) == v
  {
    var q := v / 64;
    assert q == (v / 4096) * 64 + q % 64;
    assert (v / 4096) * 4096 + (q % 64) * 64 + v % 64 == v;
  }

  /** The four-byte sequence of `v` spells `v`. */
  lemma FourByteValue(v: int)
    requires 0x1_0000 <= v < 0x11_0000
    ensures SequenceValue([0xF0 + v / 262144, 0x80 + (v / 4096) % 64, 0x80 + (v / 64) % 64, 0x80 + v % 64]) == v
  {
    var q, p := v / 64, v / 4096;
    assert q == p * 64 + q % 64;
    assert p == (v / 262144) * 64 + p % 64;
    assert (v / 262144) * 262144 + (p % 64) * 4096 + (q % 64) * 64 + v % 64 == v;
  }

  /** UTF-8 decoding undoes UTF-8 encoding. */
  lemma {:induction false} Utf8RoundTrip(s: string)
    ensures Utf8Decode(Utf8Encode(s)) == Some(s)
  {
    if s != [] {
      var head, bs := Utf8(s[0]), Utf8Encode(s);
      Utf8Char(s[0]);
      assert bs[0] == head[0];
      var n := |head|;
      assert bs[..n] == head;
      assert bs[n..] == Utf8Encode(s[1..]);
      Utf8RoundTrip(s[1..]);
      assert SequenceLength(bs[0]) == n;
      assert DecodeSequence(bs[..n]) == Some(s[0]);
      assert Utf8Decode(bs) == Some([s[0]] + s[1..]);
      assert [s[0]] + s[1..] == s;
    }
  }

  // ---------------------------------------------------------------------
  // Percent-encoding
  // ---------------------------------------------------------------------

  /** An upper-case hexadecimal digit. */
  function HexDigit(n: nat): (c: char)
    requires n < 16
    ensures IsAsciiAlphanumeric(c) && HexValue(c) == Some(n)
  {
    if n < 10 then ('0' as int + n) as char else ('A' as int + n - 10) as char
  }

  function HexValue(c: char): Option<nat> {
    if '0' <= c <= '9' then Some(c as int - '0' as int)
    else if 'A' <= c <= 'F' then Some(c as int - 'A' as int + 10)
    else if 'a' <= c <= 'f' then Some(c as int - 'a' as int + 10)
    else None
  }

  /** `%XX` for one byte, upper-case hexadecimal. */
  function PercentByte(b: Byte): (r: string)
    ensures |r| == 3 && r[0] == '%'
  {
    ['%', HexDigit(b / 16), HexDigit(b % 16)]
  }

  function PercentBytes(bs: seq<Byte>): (r: string)
    ensures |r| == 3 * |bs|
  {
    if bs == [] then [] else PercentByte(bs[0]) + PercentBytes(bs[1..])
  }

  predicate IsAsciiAlphanumeric(c: char) {
    IsDigit(c) || IsUpperAscii(c) || IsLowerAscii(c)
  }

  /** The characters `encodeURIComponent` leaves as they are. */
  predicate UriUnreserved(c: char) {
    IsAsciiAlphanumeric(c) || c in "-_.!~*'()"
  }

  /** `encodeURIComponent(s)`; what comes out is plain ASCII, and has no
      `&`, `=`, `?`, `#`, `/` or space that could end a query value. */
  function EncodeUriComponent(s: string): (r: string)
    ensures forall i :: 0 <= i < |r| ==> UriUnreserved(r[i]) || r[i] == '%'
  {
    if s == [] then []
    else
      var head := if UriUnreserved(s[0]) then [s[0]] else PercentBytes(Utf8(s[0]));
      PercentBytesChars(Utf8(s[0]));
      var rest := EncodeUriComponent(s[1..]);
      assert forall i :: 0 <= i < |head| ==> UriUnreserved(head[i]) || head[i] == '%';
      head + rest
  }

  lemma PercentBytesChars(bs: seq<Byte>)
    ensures forall i :: 0 <= i < |PercentBytes(bs)| ==>
      PercentBytes(bs)[i] == '%' || IsAsciiAlphanumeric(PercentBytes(bs)[i])
  {
    if bs != [] {
      PercentBytesChars(bs[1..]);
      var r := PercentBytes(bs);
      assert r == PercentByte(bs[0]) + PercentBytes(bs[1..]);
      forall i | 0 <= i < |r| ensures r[i] == '%' || IsAsciiAlphanumeric(r[i]) {
        var p := PercentByte(bs[0]);
        assert p[1] == HexDigit(bs[0] / 16) && p[2] == HexDigit(bs[0] % 16);
        if i >= 3 {
          assert r[i] == PercentBytes(bs[1..])[i - 3];
        }
      }
    }
  }

  /** The characters the form serialiser leaves as they are. */
  predicate FormUnreserved(c: char) {
    IsAsciiAlphanumeric(c) || c in "*-._"
  }

  /** The `application/x-www-form-urlencoded` byte serialiser: a space
      becomes `+`, everything not unreserved is percent-encoded; so an
      encoded value never holds the `&` and `=` that separate parameters. */
  function FormEncode(s: string): (r: string)
    ensures forall i :: 0 <= i < |r| ==> FormUnreserved(r[i]) || r[i] == '+' || r[i] == '%'
  {
    if s == [] then []
    else
      var head :=
        if FormUnreserved(s[0]) then [s[0]]
        else if s[0] == ' ' then "+"
        else PercentBytes(Utf8(s[0]));
      PercentBytesChars(Utf8(s[0]));
      var rest := FormEncode(s[1..]);
      assert forall i :: 0 <= i < |head| ==> FormUnreserved(head[i]) || head[i] == '+' || head[i] == '%';
      head + rest
  }

  // ---------------------------------------------------------------------
  // Decoding
  // ---------------------------------------------------------------------

  /** Turns percent-encoded text back into bytes: `%XX` gives one byte, an
      ASCII character stands for itself; anything else is malformed. */
  function PercentDecode(s: string): Option<seq<Byte>>
    decreases |s|
  {
    if s == [] then Some([])
    else if s[0] == '%' then
      if |s| < 3 then None
      else
        match (HexValue(s[1]), HexValue(s[2]))
        case (Some(hi), Some(lo)) =>
          (match PercentDecode(s[3..])
           case None => None
           case Some(rest) => Some([hi * 16 + lo] + rest))
        case _ => None
    else if s[0] as int < 0x80 then
      match PercentDecode(s[1..])
      case None => None
      case Some(rest) => Some([s[0] as int] + rest)
    else None
  }

  /** `decodeURIComponent` on the strings `encodeURIComponent` produces. */
  function DecodeUriComponent(s: string): Option<string> {
    match PercentDecode(s)
    case None => None
    case Some(bs) => Utf8Decode(bs)
  }

  lemma {:induction false} PercentDecodeBytes(bs: seq<Byte>, s: string)
    ensures PercentDecode(PercentBytes(bs) + s) ==
      (match PercentDecode(s) case None => None case Some(rest) => Some(bs + rest))
  {
    if bs != [] {
      var b := bs[0];
      var t := PercentBytes(bs) + s;
      var tail := PercentBytes(bs[1..]) + s;
      assert t == PercentByte(b) + tail;
      assert HexValue(t[1]) == Some(b / 16) && HexValue(t[2]) == Some(b % 16);
      assert t[3..] == tail;
      PercentDecodeBytes(bs[1..], s);
      assert (b / 16) * 16 + b % 16 == b;
      match PercentDecode(s)
      case None =>
        assert PercentDecode(tail) == None;
        assert PercentDecode(t) == None;
      case Some(rest) =>
        assert PercentDecode(tail) == Some(bs[1..] + rest);
        assert PercentDecode(t) == Some([b] + (bs[1..] + rest));
        assert [b] + (bs[1..] + rest) == bs + rest;
    } else {
      assert PercentBytes(bs) + s == s;
      match PercentDecode(s)
      case None =>
      case Some(rest) => assert bs + rest == rest;
    }
  }

  /** Percent-decoding the output of `encodeURIComponent` gives back the
      UTF-8 bytes of the input. */
  lemma {:induction false} PercentDecodeEncoded(s: string)
    ensures PercentDecode(EncodeUriComponent(s)) == Some(Utf8Encode(s))
  {
    if s != [] {
      var rest := EncodeUriComponent(s[1..]);
      PercentDecodeEncoded(s[1..]);
      if UriUnreserved(s[0]) {
        var t := [s[0]] + rest;
        assert t[1..] == rest;
        assert Utf8(s[0]) == [s[0] as int];
      } else {
        PercentDecodeBytes(Utf8(s[0]), rest);
      }
    }
  }

  /** `decodeURIComponent(encodeURIComponent(s)) == s` */
  lemma UriRoundTrip(s: string)
    ensures DecodeUriComponent(EncodeUriComponent(s)) == Some(s)
  {
    PercentDecodeEncoded(s);
    Utf8RoundTrip(s);
  }
}
