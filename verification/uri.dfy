/**
  `encodeURIComponent`, the percent-encoding the list requests apply to the
  search term (the query-component encoding of section 2.1 of RFC 3986, with
  ECMAScript's extra unescaped marks `! * ' ( )`): every character outside the
  unescaped set becomes the `%HH` escapes of its UTF-8 bytes, with upper-case
  hexadecimal digits. Dafny's `char` is a Unicode scalar value, so the lone
  surrogates on which the JavaScript function throws do not arise.

  The decoder is the partner that shows the encoding loses nothing.
*/
module Uri {
  import opened Types

  /** The characters encodeURIComponent leaves as they are. */
  predicate Unescaped(c: char)
  {
    ('A' <= c <= 'Z') || ('a' <= c <= 'z') || ('0' <= c <= '9') ||
    c == '-' || c == '_' || c == '.' || c == '!' || c == '~' ||
    c == '*' || c == '\'' || c == '(' || c == ')'
  }

  predicate IsHexDigit(c: char)
  {
    ('0' <= c <= '9') || ('A' <= c <= 'F')
  }

  function HexDigit(d: nat): (c: char)
    requires d < 16
    ensures IsHexDigit(c)
  {
    if d < 10 then ('0' as int + d) as char else ('A' as int + d - 10) as char
  }

  function HexValue(c: char): (d: nat)
    requires IsHexDigit(c)
    ensures d < 16
  {
    if c <= '9' then c as int - '0' as int else c as int - 'A' as int + 10
  }

  predicate IsByte(b: int)
  {
    0 <= b < 256
  }

  /** The UTF-8 encoding of one scalar value. */
  function Utf8(c: char): (bs: seq<int>)
    ensures 1 <= |bs| <= 4
    ensures forall i :: 0 <= i < |bs| ==> IsByte(bs[i])
  {
    var cp := c as int;
    if cp < 0x80 then [cp]
    else if cp < 0x800 then [0xC0 + cp / 64, 0x80 + cp % 64]
    else if cp < 0x10000 then [0xE0 + cp / 4096, 0x80 + (cp / 64) % 64, 0x80 + cp % 64]
    else [0xF0 + cp / 262144, 0x80 + (cp / 4096) % 64, 0x80 + (cp / 64) % 64, 0x80 + cp % 64]
  }

  function PercentByte(b: int): (s: string)
    requires IsByte(b)
    ensures |s| == 3 && s[0] == '%' && IsHexDigit(s[1]) && IsHexDigit(s[2])
  {
    ['%', HexDigit(b / 16), HexDigit(b % 16)]
  }

  function PercentBytes(bs: seq<int>): (s: string)
    requires forall i :: 0 <= i < |bs| ==> IsByte(bs[i])
    ensures |s| == 3 * |bs|
    decreases |bs|
  {
    if bs == [] then [] else PercentByte(bs[0]) + PercentBytes(bs[1..])
  }

  function EncodeChar(c: char): string
  {
    if Unescaped(c) then [c] else PercentBytes(Utf8(c))
  }

  /** encodeURIComponent(s). */
  function EncodeURIComponent(s: string): (r: string)
    ensures forall i :: 0 <= i < |r| ==> Unescaped(r[i]) || r[i] == '%' || IsHexDigit(r[i])
    ensures |s| <= |r| <= 12 * |s|
    decreases |s|
  {
    if s == [] then [] else
      var head := EncodeChar(s[0]);
      var tail := EncodeURIComponent(s[1..]);
      PercentBytesShape(Utf8(s[0]));
      head + tail
  }

  /** A helper of EncodeURIComponent's contract: what a run of escapes is made of. */
  lemma {:induction false} PercentBytesShape(bs: seq<int>)
    requires forall i :: 0 <= i < |bs| ==> IsByte(bs[i])
    ensures forall i :: 0 <= i < |PercentBytes(bs)| ==> PercentBytes(bs)[i] == '%' || IsHexDigit(PercentBytes(bs)[i])
    decreases |bs|
  {
    if bs != [] {
      PercentBytesShape(bs[1..]);
      var s := PercentBytes(bs);
      assert s == PercentByte(bs[0]) + PercentBytes(bs[1..]);
      forall i | 0 <= i < |s| ensures s[i] == '%' || IsHexDigit(s[i]) {
        if i >= 3 {
          assert s[i] == PercentBytes(bs[1..])[i - 3];
        }
      }
    }
  }

  // ----- decoding: the partner of the encoder -----

  /** The byte written as `%HH` at position `at`, if there is one. */
  function EscapedByte(s: string, at: nat): Option<int>
  {
    if at + 3 <= |s| && s[at] == '%' && IsHexDigit(s[at + 1]) && IsHexDigit(s[at + 2])
    then Some(16 * HexValue(s[at + 1]) + HexValue(s[at + 2]))
    else None
  }

  /** How many bytes a UTF-8 sequence starting with lead byte `b` has; 0 for a byte that cannot lead. */
  function SequenceLength(b: int): nat
  {
    if 0 <= b < 0x80 then 1
    else if 0xC0 <= b < 0xE0 then 2
    else if 0xE0 <= b < 0xF0 then 3
    else if 0xF0 <= b < 0xF8 then 4
    else 0
  }

  predicate IsContinuation(b: int)
  {
    0x80 <= b < 0xC0
  }

  predicate IsScalar(cp: int)
  {
    (0 <= cp < 0xD800) || (0xE000 <= cp < 0x11_0000)
  }

  /** A two-byte sequence whose lead byte `b0` is already read. */
  function DecodeTwo(s: string, b0: int): Option<(char, nat)>
  {
    match EscapedByte(s, 3)
    case Some(b1) =>
      var cp := (b0 - 0xC0) * 64 + (b1 - 0x80);
      if IsContinuation(b1) && IsScalar(cp) then Some((cp as char, 6)) else None
    case None => None
  }

  function DecodeThree(s: string, b0: int): Option<(char, nat)>
  {
    match (EscapedByte(s, 3), EscapedByte(s, 6))
    case (Some(b1), Some(b2)) =>
      var cp := (b0 - 0xE0) * 4096 + (b1 - 0x80) * 64 + (b2 - 0x80);
      if IsContinuation(b1) && IsContinuation(b2) && IsScalar(cp) then Some((cp as char, 9)) else None
    case _ => None
  }

  function DecodeFour(s: string, b0: int): Option<(char, nat)>
  {
    match (EscapedByte(s, 3), EscapedByte(s, 6), EscapedByte(s, 9))
    case (Some(b1), Some(b2), Some(b3)) =>
      var cp := (b0 - 0xF0) * 262144 + (b1 - 0x80) * 4096 + (b2 - 0x80) * 64 + (b3 - 0x80);
      if IsContinuation(b1) && IsContinuation(b2) && IsContinuation(b3) && IsScalar(cp)
      then Some((cp as char, 12)) else None
    case _ => None
  }

  /** Decodes the character whose escapes start `s`, with the number of characters they take. */
  function DecodeEscaped(s: string): Option<(char, nat)>
  {
    match EscapedByte(s, 0)
    case None => None
    case Some(b0) =>
      var n := SequenceLength(b0);
      if n == 1 then Some((b0 as char, 3))
      else if n == 2 then DecodeTwo(s, b0)
      else if n == 3 then DecodeThree(s, b0)
      else if n == 4 then DecodeFour(s, b0)
      else None
  }

  /** decodeURIComponent restricted to what the encoder can produce; `None` on a malformed escape. */
  function DecodeURIComponent(s: string): Option<string>
    decreases |s|
  {
    if s == [] then Some([])
    else if s[0] != '%' then
      match DecodeURIComponent(s[1..])
      case Some(rest) => Some([s[0]] + rest)
      case None => None
    else
      match DecodeEscaped(s)
      case Some((c, n)) =>
        if 0 < n <= |s| then
          match DecodeURIComponent(s[n..])
          case Some(rest) => Some([c] + rest)
          case None => None
        else None
      case None => None
  }

  lemma HexRoundTrip(b: int)
    requires IsByte(b)
    ensures 16 * HexValue(HexDigit(b / 16)) + HexValue(HexDigit(b % 16)) == b
  {
  }

  lemma {:induction false} PercentBytesAt(bs: seq<int>, k: nat)
    requires forall i :: 0 <= i < |bs| ==> IsByte(bs[i])
    requires k < |bs|
    ensures PercentBytes(bs)[3 * k] == '%'
    ensures PercentBytes(bs)[3 * k + 1] == HexDigit(bs[k] / 16)
    ensures PercentBytes(bs)[3 * k + 2] == HexDigit(bs[k] % 16)
    decreases |bs|
  {
    if k > 0 {
      PercentBytesAt(bs[1..], k - 1);
      var s := PercentBytes(bs);
      var u := PercentBytes(bs[1..]);
      assert s == PercentByte(bs[0]) + u;
      assert 3 * k == 3 * (k - 1) + 3;
    }
  }

  lemma EscapedByteOf(s: string, at: nat, b: int)
    requires IsByte(b) && at + 3 <= |s|
    requires s[at] == '%' && s[at + 1] == HexDigit(b / 16) && s[at + 2] == HexDigit(b % 16)
    ensures EscapedByte(s, at) == Some(b)
  {
    HexRoundTrip(b);
  }

  lemma EscapedByteAt(bs: seq<int>, k: nat, t: string)
    requires forall i :: 0 <= i < |bs| ==> IsByte(bs[i])
    requires k < |bs|
    ensures EscapedByte(PercentBytes(bs) + t, 3 * k) == Some(bs[k])
  {
    var p := PercentBytes(bs);
    var s := p + t;
    var at := 3 * k;
    PercentBytesAt(bs, k);
    assert s[at] == p[at] && s[at + 1] == p[at + 1] && s[at + 2] == p[at + 2];
    EscapedByteOf(s, at, bs[k]);
  }

  /** Two-byte sequences: a lead byte in C0..DF, one continuation byte, and the code point back. */
  lemma Utf8Two(cp: int)
    requires 0x80 <= cp < 0x800
    ensures SequenceLength(0xC0 + cp / 64) == 2 && IsContinuation(0x80 + cp % 64)
    ensures (cp / 64) * 64 + cp % 64 == cp
  {
  }

  /** Three-byte sequences. */
  lemma Utf8Three(cp: int)
    requires 0x800 <= cp < 0x10000
    ensures SequenceLength(0xE0 + cp / 4096) == 3
    ensures IsContinuation(0x80 + (cp / 64) % 64) && IsContinuation(0x80 + cp % 64)
    ensures (cp / 4096) * 4096 + ((cp / 64) % 64) * 64 + cp % 64 == cp
  {
    var q := cp / 64;
    assert cp == 64 * q + cp % 64;
    assert q / 64 == cp / 4096;
    assert q == 64 * (q / 64) + q % 64;
  }

  /** Four-byte sequences. */
  lemma Utf8Four(cp: int)
    requires 0x10000 <= cp < 0x11_0000
    ensures SequenceLength(0xF0 + cp / 262144) == 4
    ensures IsContinuation(0x80 + (cp / 4096) % 64)
    ensures IsContinuation(0x80 + (cp / 64) % 64) && IsContinuation(0x80 + cp % 64)
    ensures (cp / 262144) * 262144 + ((cp / 4096) % 64) * 4096 + ((cp / 64) % 64) * 64 + cp % 64 == cp
  {
    var q := cp / 64;
    var r := q / 64;
    assert cp == 64 * q + cp % 64;
    assert q == 64 * r + q % 64;
    assert r == cp / 4096;
    assert r == 64 * (r / 64) + r % 64;
    assert r / 64 == cp / 262144;
    assert cp / 262144 < 8;
  }

  /** The escapes of a character of two UTF-8 bytes decode to it. */
  lemma DecodeEscapedTwo(c: char, t: string)
    requires 0x80 <= c as int < 0x800
    ensures var bs := Utf8(c);
      SequenceLength(bs[0]) == 2 && DecodeTwo(PercentBytes(bs) + t, bs[0]) == Some((c, 6))
  {
    Utf8Two(c as int);
    EscapedByteAt(Utf8(c), 1, t);
  }

  lemma DecodeEscapedThree(c: char, t: string)
    requires 0x800 <= c as int < 0x10000
    ensures var bs := Utf8(c);
      SequenceLength(bs[0]) == 3 && DecodeThree(PercentBytes(bs) + t, bs[0]) == Some((c, 9))
  {
    Utf8Three(c as int);
    EscapedByteAt(Utf8(c), 1, t);
    EscapedByteAt(Utf8(c), 2, t);
  }

  lemma DecodeEscapedFour(c: char, t: string)
    requires 0x10000 <= c as int
    ensures var bs := Utf8(c);
      SequenceLength(bs[0]) == 4 && DecodeFour(PercentBytes(bs) + t, bs[0]) == Some((c, 12))
  {
    Utf8Four(c as int);
    EscapedByteAt(Utf8(c), 1, t);
    EscapedByteAt(Utf8(c), 2, t);
    EscapedByteAt(Utf8(c), 3, t);
  }

  /** The escapes of one character decode to that character and take exactly their own length. */
  lemma DecodeEscapedChar(c: char, t: string)
    requires !Unescaped(c)
    ensures DecodeEscaped(PercentBytes(Utf8(c)) + t) == Some((c, 3 * |Utf8(c)|))
  {
    var cp := c as int;
    EscapedByteAt(Utf8(c), 0, t);
    if cp < 0x80 {
    } else if cp < 0x800 {
      DecodeEscapedTwo(c, t);
    } else if cp < 0x10000 {
      DecodeEscapedThree(c, t);
    } else {
      DecodeEscapedFour(c, t);
    }
  }

  lemma DecodeChar(c: char, t: string)
    ensures DecodeURIComponent(EncodeChar(c) + t) ==
      match DecodeURIComponent(t) case Some(rest) => Some([c] + rest) case None => None
  {
    var s := EncodeChar(c) + t;
    if Unescaped(c) {
      assert s[1..] == t;
    } else {
      DecodeEscapedChar(c, t);
      var n := 3 * |Utf8(c)|;
      assert s[0] == '%';
      assert s[n..] == t;
    }
  }

  /** Round trip: decoding the encoding of any string gives the string back. */
  lemma {:induction false} EncodeDecodeRoundTrip(s: string)
    ensures DecodeURIComponent(EncodeURIComponent(s)) == Some(s)
    decreases |s|
  {
    if s != [] {
      EncodeDecodeRoundTrip(s[1..]);
      DecodeChar(s[0], EncodeURIComponent(s[1..]));
      assert [s[0]] + s[1..] == s;
    }
  }

  /** The encoding is injective: different search terms never produce the same query text. */
  lemma EncodeInjective(s: string, t: string)
    requires EncodeURIComponent(s) == EncodeURIComponent(t)
    ensures s == t
  {
    EncodeDecodeRoundTrip(s);
    EncodeDecodeRoundTrip(t);
  }

  /** The encoding never contains the separators of a query string. */
  lemma EncodedHasNoSeparators(s: string)
    ensures forall i :: 0 <= i < |EncodeURIComponent(s)| ==>
      EncodeURIComponent(s)[i] !in {'&', '=', '?', '#', ' ', '+'}
  {
  }
}
