/** ECMAScript `encodeURIComponent` (ECMA-262, section 19.2.6, URI Handling
    Functions) over Dafny strings, whose characters are Unicode scalar
    values: every character outside the unreserved set becomes the
    percent-encoding (section 2.1 of RFC 3986) of its UTF-8 bytes (section 3
    of RFC 3629). The decoder `Decode` is `decodeURIComponent`, with `None`
    where that function throws a URIError; it serves as the inverse against
    which the encoder is proved. */
module UriComponent {
  import opened Results

  type Byte = b: int | 0 <= b < 256

  /** The characters `encodeURIComponent` leaves alone: ASCII letters and
      digits and - _ . ! ~ * ' ( ) */
  predicate Unreserved(c: char)
  {
    || ('A' <= c <= 'Z') || ('a' <= c <= 'z') || ('0' <= c <= '9')
    || c == '-' || c == '_' || c == '.' || c == '!' || c == '~'
    || c == '*' || c == '\'' || c == '(' || c == ')'
  }

  /** Upper-case hexadecimal digits, as the encoder writes them. */
  const HexDigits: string := "0123456789ABCDEF"

  /** A Unicode scalar value: a code point that is not a surrogate. */
  predicate IsScalar(n: int)
  {
    0 <= n < 0xD800 || 0xE000 <= n < 0x11_0000
  }

  /** The UTF-8 bytes of one code point: 1 byte below U+0080, 2 below
      U+0800, 3 below U+10000, else 4; six payload bits per trailing byte. */
  function Utf8(c: char): (bs: seq<Byte>)
    ensures 1 <= |bs| <= 4
  {
    var v := c as int;
    var q1, r0 := v / 64, v % 64;
    var q2, r1 := q1 / 64, q1 % 64;
    var q3, r2 := q2 / 64, q2 % 64;
    if v < 0x80 then [v]
    else if v < 0x800 then [0xC0 + q1, 0x80 + r0]
    else if v < 0x1_0000 then [0xE0 + q2, 0x80 + r1, 0x80 + r0]
    else [0xF0 + q3, 0x80 + r2, 0x80 + r1, 0x80 + r0]
  }

  /** One byte written as `%XY`. */
  function PercentByte(b: Byte): string
  {
    ['%', HexDigits[b / 16], HexDigits[b % 16]]
  }

  function PercentBytes(bs: seq<Byte>): (r: string)
    ensures |r| == 3 * |bs|
  {
    if bs == [] then [] else PercentByte(bs[0]) + PercentBytes(bs[1..])
  }

  function EncodeChar(c: char): string
  {
    if Unreserved(c) then [c] else PercentBytes(Utf8(c))
  }

  /** `encodeURIComponent(s)`: each input character becomes between 1 and
      12 output characters. */
  function Encode(s: string): (r: string)
    ensures |s| <= |r| <= 12 * |s|
  {
    if s == [] then [] else EncodeChar(s[0]) + Encode(s[1..])
  }

  /** The output consists of unreserved characters and `%` only, so it never
      holds a space. */
  lemma {:induction false} EncodeAlphabet(s: string)
    ensures forall i :: 0 <= i < |Encode(s)| ==> Unreserved(Encode(s)[i]) || Encode(s)[i] == '%'
  {
    if s != [] {
      EncodeAlphabet(s[1..]);
      if !Unreserved(s[0]) {
        PercentBytesAlphabet(Utf8(s[0]));
      }
    }
  }

  lemma {:induction false} PercentBytesAlphabet(bs: seq<Byte>)
    ensures forall i :: 0 <= i < |PercentBytes(bs)| ==>
              Unreserved(PercentBytes(bs)[i]) || PercentBytes(bs)[i] == '%'
  {
    if bs != [] {
      PercentBytesAlphabet(bs[1..]);
    }
  }

  /** The encoder works character by character, so it distributes over
      concatenation. */
  lemma {:induction false} EncodeConcat(a: string, b: string)
    ensures Encode(a + b) == Encode(a) + Encode(b)
  {
    if a == [] {
      assert a + b == b;
    } else {
      assert (a + b)[0] == a[0];
      assert (a + b)[1..] == a[1..] + b;
      EncodeConcat(a[1..], b);
    }
  }

  /** A space is not unreserved; its single UTF-8 byte 0x20 is written %20. */
  lemma EncodeSpace()
    ensures Encode(" ") == "%20"
  {
    assert Utf8(' ') == [0x20];
    assert PercentBytes([0x20]) == PercentByte(0x20) + PercentBytes([]);
  }

  // ---------------------------------------------------------------------
  // The decoder: `decodeURIComponent`.

  function HexValue(c: char): (r: Option<int>)
    ensures r.Some? ==> 0 <= r.value < 16
  {
    if '0' <= c <= '9' then Some(c as int - '0' as int)
    else if 'A' <= c <= 'F' then Some(c as int - 'A' as int + 10)
    else if 'a' <= c <= 'f' then Some(c as int - 'a' as int + 10)
    else None
  }

  /** The escape `%XY` at the start of `t`, if there is one. */
  function ParseByte(t: string): (r: Option<Byte>)
    ensures r.Some? ==> |t| >= 3
  {
    if |t| < 3 || t[0] != '%' then None
    else match (HexValue(t[1]), HexValue(t[2]))
      case (Some(h), Some(l)) => Some(h * 16 + l)
      case _ => None
  }

  /** `n` consecutive escapes at the start of `t`. */
  function ParseBytes(t: string, n: nat): (r: Option<seq<Byte>>)
    ensures r.Some? ==> |r.value| == n && |t| >= 3 * n
  {
    if n == 0 then Some([])
    else match ParseByte(t)
      case None => None
      case Some(b) =>
        match ParseBytes(t[3..], n - 1)
        case None => None
        case Some(rest) => Some([b] + rest)
  }

  /** The length of the UTF-8 sequence a byte starts; 0 if it cannot start one. */
  function SequenceLength(b: Byte): nat
  {
    if b < 0x80 then 1
    else if 0xC0 <= b < 0xE0 then 2
    else if 0xE0 <= b < 0xF0 then 3
    else if 0xF0 <= b < 0xF8 then 4
    else 0
  }

  predicate IsContinuation(b: Byte)
  {
    0x80 <= b < 0xC0
  }

  /** The smallest code point that needs an `n`-byte sequence; a smaller one
      in `n` bytes is an overlong form, which is not valid UTF-8. */
  function MinForLength(n: nat): int
  {
    if n <= 1 then 0 else if n == 2 then 0x80 else if n == 3 then 0x800 else 0x1_0000
  }

  /** The code point of one complete UTF-8 sequence, or `None` if the bytes
      are not a valid encoding of a scalar value. */
  function Utf8Decode(bs: seq<Byte>): Option<char>
  {
    var n := |bs|;
    if n == 0 || n > 4 || SequenceLength(bs[0]) != n then None
    else if exists i :: 1 <= i < n && !IsContinuation(bs[i]) then None
    else
      var v: int :=
        if n == 1 then bs[0] as int
        else if n == 2 then (bs[0] as int - 0xC0) * 64 + (bs[1] as int - 0x80)
        else if n == 3 then ((bs[0] as int - 0xE0) * 64 + (bs[1] as int - 0x80)) * 64 + (bs[2] as int - 0x80)
        else (((bs[0] as int - 0xF0) * 64 + (bs[1] as int - 0x80)) * 64 + (bs[2] as int - 0x80)) * 64 + (bs[3] as int - 0x80);
      if IsScalar(v) && MinForLength(n) <= v then Some(v as char) else None
  }

  /** `decodeURIComponent(t)`: characters other than `%` are copied; an
      escape starts a UTF-8 sequence whose remaining bytes must follow as
      escapes. `None` is the URIError. */
  function Decode(t: string): Option<string>
    decreases |t|
  {
    if t == [] then Some([])
    else if t[0] != '%' then
      match Decode(t[1..])
      case None => None
      case Some(rest) => Some([t[0]] + rest)
    else
      match ParseByte(t)
      case None => None
      case Some(b0) =>
        var n := SequenceLength(b0);
        if n == 0 then None
        else match ParseBytes(t, n)
          case None => None
          case Some(bs) =>
            match Utf8Decode(bs)
            case None => None
            case Some(c) =>
              match Decode(t[3 * n..])
              case None => None
              case Some(rest) => Some([c] + rest)
  }

  // ---------------------------------------------------------------------
  // Round trip.

  lemma HexDigitValue(k: int)
    requires 0 <= k < 16
    ensures HexValue(HexDigits[k]) == Some(k)
  {
  }

  lemma ParsePercentByte(b: Byte, rest: string)
    ensures ParseByte(PercentByte(b) + rest) == Some(b)
  {
    HexDigitValue(b / 16);
    HexDigitValue(b % 16);
  }

  lemma {:induction false} ParsePercentBytes(bs: seq<Byte>, rest: string)
    ensures ParseBytes(PercentBytes(bs) + rest, |bs|) == Some(bs)
  {
    if bs != [] {
      var u := PercentBytes(bs[1..]) + rest;
      var t := PercentBytes(bs) + rest;
      PercentBytesFront(bs, rest);
      ParsePercentByte(bs[0], u);
      ParsePercentBytes(bs[1..], rest);
      ParseBytesFront(t, |bs|);
      assert [bs[0]] + bs[1..] == bs;
    }
  }

  /** The first escape of an escaped byte sequence, and what follows it. */
  lemma PercentBytesFront(bs: seq<Byte>, rest: string)
    requires bs != []
    ensures PercentBytes(bs) + rest == PercentByte(bs[0]) + (PercentBytes(bs[1..]) + rest)
    ensures (PercentBytes(bs) + rest)[3..] == PercentBytes(bs[1..]) + rest
  {
  }

  /** `ParseBytes` takes one escape, then the rest. */
  lemma ParseBytesFront(t: string, n: nat)
    requires n > 0
    ensures ParseBytes(t, n) ==
              match ParseByte(t)
              case None => None
              case Some(b) =>
                match ParseBytes(t[3..], n - 1)
                case None => None
                case Some(bs) => Some([b] + bs)
  {
  }

  /** UTF-8 decoding inverts UTF-8 encoding, and the lead byte announces the
      sequence length. */
  lemma Utf8RoundTrip(c: char)
    ensures SequenceLength(Utf8(c)[0]) == |Utf8(c)|
    ensures Utf8Decode(Utf8(c)) == Some(c)
  {
    var v := c as int;
    if v < 0x80 {
    } else if v < 0x800 {
      Utf8RoundTripTwo(c);
    } else if v < 0x1_0000 {
      Utf8RoundTripThree(c);
    } else {
      Utf8RoundTripFour(c);
    }
  }

  lemma Utf8RoundTripTwo(c: char)
    requires 0x80 <= c as int < 0x800
    ensures SequenceLength(Utf8(c)[0]) == |Utf8(c)| == 2
    ensures Utf8Decode(Utf8(c)) == Some(c)
  {
    var v := c as int;
    assert v == v / 64 * 64 + v % 64;
  }

  lemma Utf8RoundTripThree(c: char)
    requires 0x800 <= c as int < 0x1_0000
    ensures SequenceLength(Utf8(c)[0]) == |Utf8(c)| == 3
    ensures Utf8Decode(Utf8(c)) == Some(c)
  {
    var v := c as int;
    var q1 := v / 64;
    assert v == q1 * 64 + v % 64;
    assert q1 == q1 / 64 * 64 + q1 % 64;
  }

  lemma Utf8RoundTripFour(c: char)
    requires 0x1_0000 <= c as int
    ensures SequenceLength(Utf8(c)[0]) == |Utf8(c)| == 4
    ensures Utf8Decode(Utf8(c)) == Some(c)
  {
    var v := c as int;
    var q1 := v / 64;
    var q2 := q1 / 64;
    assert v == q1 * 64 + v % 64;
    assert q1 == q2 * 64 + q1 % 64;
    assert q2 == q2 / 64 * 64 + q2 % 64;
  }

  /** An escaped, valid UTF-8 sequence at the front decodes to its
      character, followed by the decoding of what comes after it. */
  lemma DecodeEscapedSequence(bs: seq<Byte>, c: char, rest: string)
    requires bs != [] && SequenceLength(bs[0]) == |bs|
    requires Utf8Decode(bs) == Some(c)
    ensures Decode(PercentBytes(bs) + rest) ==
              match Decode(rest)
              case None => None
              case Some(r) => Some([c] + r)
  {
    var t := PercentBytes(bs) + rest;
    ParsePercentBytes(bs, rest);
    PercentBytesFront(bs, rest);
    ParsePercentByte(bs[0], PercentBytes(bs[1..]) + rest);
    assert t[3 * |bs|..] == rest;
    DecodeEscapeFront(t, bs[0], bs, c);
  }

  /** `Decode` on an escape that starts a valid sequence: the character,
      then the decoding of what follows the sequence. */
  lemma DecodeEscapeFront(t: string, b0: Byte, bs: seq<Byte>, c: char)
    requires t != [] && t[0] == '%' && ParseByte(t) == Some(b0)
    requires SequenceLength(b0) == |bs| > 0 && ParseBytes(t, |bs|) == Some(bs)
    requires Utf8Decode(bs) == Some(c)
    ensures Decode(t) ==
              match Decode(t[3 * |bs|..])
              case None => None
              case Some(r) => Some([c] + r)
  {
  }

  lemma DecodeEncodeChar(c: char, rest: string)
    ensures Decode(EncodeChar(c) + rest) ==
              match Decode(rest)
              case None => None
              case Some(r) => Some([c] + r)
  {
    if Unreserved(c) {
      var t := EncodeChar(c) + rest;
      assert t[0] == c && t[1..] == rest;
    } else {
      Utf8RoundTrip(c);
      DecodeEscapedSequence(Utf8(c), c, rest);
    }
  }

  /** `decodeURIComponent(encodeURIComponent(s)) == s` for every string. */
  lemma {:induction false} DecodeEncode(s: string)
    ensures Decode(Encode(s)) == Some(s)
  {
    if s != [] {
      assert Encode(s) == EncodeChar(s[0]) + Encode(s[1..]);
      DecodeEncode(s[1..]);
      DecodeEncodeChar(s[0], Encode(s[1..]));
      assert [s[0]] + s[1..] == s;
    }
  }
}
