/**
UTF-8 (section 3 of RFC 3629) as the Python decoder applies it with replacement: each longest
malformed piece becomes U+FFFD.
*/
module Utf8 {
  type Byte = n: int | 0 <= n < 256

  function EncodeChar(c: char): seq<Byte> {
    var n := c as int;
    if n < 0x80 then [n]
    else if n < 0x800 then [0xC0 + n / 64, 0x80 + n % 64]
    else if n < 0x10000 then [0xE0 + n / 4096, 0x80 + n / 64 % 64, 0x80 + n % 64]
    else [0xF0 + n / 262144, 0x80 + n / 4096 % 64, 0x80 + n / 64 % 64, 0x80 + n % 64]
  }

  function Encode(s: string): seq<Byte> {
    if s == "" then [] else EncodeChar(s[0]) + Encode(s[1..])
  }

  /** How many bytes a character starting with this byte takes; 0 if none can start so. */
  function Width(lead: Byte): nat {
    if lead < 0x80 then 1
    else if 0xC2 <= lead <= 0xDF then 2
    else if 0xE0 <= lead <= 0xEF then 3
    else if 0xF0 <= lead <= 0xF4 then 4
    else 0
  }

  /** Whether byte `k` may follow the lead byte at distance `k`. */
  predicate Continues(lead: Byte, k: nat, b: Byte) {
    0x80 <= b <= 0xBF &&
    (k == 1 ==>
       (lead == 0xE0 ==> b >= 0xA0) && (lead == 0xED ==> b <= 0x9F) &&
       (lead == 0xF0 ==> b >= 0x90) && (lead == 0xF4 ==> b <= 0x8F))
  }

  /** The length of the longest acceptable start of a character. */
  function Piece(bytes: seq<Byte>): (n: nat)
    requires bytes != []
    ensures 1 <= n <= |bytes|
    ensures n <= Width(bytes[0]) || n == 1
  {
    var w := Width(bytes[0]);
    if w < 2 || |bytes| < 2 || !Continues(bytes[0], 1, bytes[1]) then 1
    else if w < 3 || |bytes| < 3 || !Continues(bytes[0], 2, bytes[2]) then 2
    else if w < 4 || |bytes| < 4 || !Continues(bytes[0], 3, bytes[3]) then 3
    else 4
  }

  function Scalar(bytes: seq<Byte>): int
    requires 1 <= |bytes| <= 4
  {
    var lead: int := bytes[0];
    if |bytes| == 1 then lead
    else if |bytes| == 2 then (lead - 0xC0) * 64 + Low(bytes[1])
    else if |bytes| == 3 then (lead - 0xE0) * 4096 + Low(bytes[1]) * 64 + Low(bytes[2])
    else (lead - 0xF0) * 262144 + Low(bytes[1]) * 4096 + Low(bytes[2]) * 64 + Low(bytes[3])
  }

  /** The payload of a continuation byte. */
  function Low(b: Byte): int {
    b - 0x80
  }

  function DecodeChar(bytes: seq<Byte>): char
    requires bytes != []
  {
    var n := Piece(bytes);
    if n == Width(bytes[0]) && (0 <= Scalar(bytes[..n]) < 0xD800 || 0xE000 <= Scalar(bytes[..n]) < 0x110000) then
      Scalar(bytes[..n]) as char
    else
      0xFFFD as char
  }

  function Decode(bytes: seq<Byte>): string {
    if bytes == [] then "" else [DecodeChar(bytes)] + Decode(bytes[Piece(bytes)..])
  }

  /** The six-bit digits of a number. */
  lemma Digits(n: nat)
    ensures n == n / 64 * 64 + n % 64
    ensures n / 64 == n / 4096 * 64 + n / 64 % 64
    ensures n / 4096 == n / 262144 * 64 + n / 4096 % 64
  {
  }

  lemma EncodedPiece(c: char, bytes: seq<Byte>)
    requires EncodeChar(c) <= bytes
    ensures |EncodeChar(c)| >= 1 && Piece(bytes) == Width(bytes[0]) == |EncodeChar(c)|
  {
    var n, code := c as int, EncodeChar(c);
    Digits(n);
    assert forall i :: 0 <= i < |code| ==> bytes[i] == code[i];
    if n >= 0x80 {
      assert Continues(bytes[0], 1, bytes[1]);
    }
  }

  lemma EncodedScalar(c: char)
    ensures |EncodeChar(c)| >= 1 && Scalar(EncodeChar(c)) == c as int
  {
    Digits(c as int);
  }

  lemma {:induction false} DecodeEncodedChar(c: char, rest: seq<Byte>)
    ensures var bytes := EncodeChar(c) + rest;
            EncodeChar(c) != [] && Piece(bytes) == |EncodeChar(c)| && DecodeChar(bytes) == c &&
            bytes[Piece(bytes)..] == rest
  {
    var code := EncodeChar(c);
    var bytes := code + rest;
    EncodedPiece(c, bytes);
    EncodedScalar(c);
    assert bytes[..|code|] == code && bytes[|code|..] == rest;
  }

  /** Decoding gives back every encoded text. */
  lemma {:induction false} DecodeEncode(s: string)
    ensures Decode(Encode(s)) == s
  {
    if s != "" {
      DecodeEncode(s[1..]);
      DecodeEncodedChar(s[0], Encode(s[1..]));
      assert EncodeChar(s[0]) != [];
    }
  }

  /** ASCII bytes are their own characters. */
  lemma {:induction false} DecodeAscii(bytes: seq<Byte>)
    requires forall i :: 0 <= i < |bytes| ==> bytes[i] < 0x80
    ensures |Decode(bytes)| == |bytes|
    ensures forall i :: 0 <= i < |bytes| ==> Decode(bytes)[i] == bytes[i] as char
  {
    if bytes != [] {
      DecodeAscii(bytes[1..]);
    }
  }

  /** A number in two six-bit digits, or more. */
  lemma Recompose(high: int, low: int)
    requires 0 <= low < 64 && high >= 0
    ensures (high * 64 + low) / 64 == high && (high * 64 + low) % 64 == low
  {
  }

  lemma TwoBytes(a: Byte, b: Byte)
    requires 0xC2 <= a <= 0xDF && Continues(a, 1, b)
    ensures EncodeChar(Scalar([a, b]) as char) == [a, b]
  {
    Recompose(a - 0xC0, Low(b));
  }

  lemma ThreeBytes(a: Byte, b: Byte, c: Byte)
    requires 0xE0 <= a <= 0xEF && Continues(a, 1, b) && Continues(a, 2, c)
    ensures var n := Scalar([a, b, c]);
            (0 <= n < 0xD800 || 0xE000 <= n < 0x110000) && EncodeChar(n as char) == [a, b, c]
  {
    Recompose((a - 0xE0) * 64 + Low(b), Low(c));
    Recompose(a - 0xE0, Low(b));
  }

  lemma FourBytes(a: Byte, b: Byte, c: Byte, d: Byte)
    requires 0xF0 <= a <= 0xF4 && Continues(a, 1, b) && Continues(a, 2, c) && Continues(a, 3, d)
    ensures 0xE000 <= Scalar([a, b, c, d]) < 0x110000
    ensures EncodeChar(Scalar([a, b, c, d]) as char) == [a, b, c, d]
  {
    Recompose((a - 0xF0) * 4096 + Low(b) * 64 + Low(c), Low(d));
    Recompose((a - 0xF0) * 64 + Low(b), Low(c));
    Recompose(a - 0xF0, Low(b));
  }

  /** A complete piece is decoded as the character it encodes. */
  lemma {:induction false} CompletePiece(bytes: seq<Byte>)
    requires bytes != [] && Piece(bytes) == Width(bytes[0])
    ensures EncodeChar(DecodeChar(bytes)) == bytes[..Piece(bytes)]
  {
    var n := Piece(bytes);
    ContinuationRange(bytes);
    if n == 2 {
      TwoBytes(bytes[0], bytes[1]);
      assert bytes[..n] == [bytes[0], bytes[1]];
    } else if n == 3 {
      ThreeBytes(bytes[0], bytes[1], bytes[2]);
      assert bytes[..n] == [bytes[0], bytes[1], bytes[2]];
    } else if n == 4 {
      FourBytes(bytes[0], bytes[1], bytes[2], bytes[3]);
      assert bytes[..n] == [bytes[0], bytes[1], bytes[2], bytes[3]];
    }
  }

  lemma ContinuationRange(bytes: seq<Byte>)
    requires bytes != []
    ensures forall k :: 1 <= k < Piece(bytes) ==> Continues(bytes[0], k, bytes[k])
  {
  }

  // ---------------------------------------------------------------- longest pieces

  /** No character has a longer start in common with the bytes than the piece. */
  lemma {:induction false} PieceIsLongest(bytes: seq<Byte>, m: nat, c: char)
    requires 1 <= m <= |bytes| && bytes[..m] <= EncodeChar(c)
    ensures m <= Piece(bytes)
  {
    var code := EncodeChar(c);
    EncodedPiece(c, code);
    ContinuationRange(code);
    assert forall k :: 0 <= k < m ==> bytes[k] == bytes[..m][k] == code[k];
  }

  lemma WholePiece(bytes: seq<Byte>)
    requires bytes != [] && |bytes| == Width(bytes[0])
    requires forall k :: 1 <= k < |bytes| ==> Continues(bytes[0], k, bytes[k])
    ensures Piece(bytes) == |bytes|
  {
  }

  /** Bytes that complete any started piece. */
  function Filler(lead: Byte): seq<Byte> {
    [lead, if lead == 0xE0 then 0xA0 else if lead == 0xF0 then 0x90 else 0x80, 0x80, 0x80]
  }

  /** A piece starts some character, unless its first byte starts none. */
  lemma {:induction false} PieceStarts(bytes: seq<Byte>) returns (c: char)
    requires bytes != [] && Width(bytes[0]) > 0
    ensures bytes[..Piece(bytes)] <= EncodeChar(c)
  {
    var n, w := Piece(bytes), Width(bytes[0]);
    var filler := Filler(bytes[0]);
    var full := bytes[..n] + filler[n..w];
    ContinuationRange(bytes);
    assert full[0] == bytes[0] && |full| == w;
    forall k | 1 <= k < w ensures Continues(full[0], k, full[k]) {
      if k < n {
        assert full[k] == bytes[k];
      } else {
        assert full[k] == filler[k];
      }
    }
    WholePiece(full);
    CompletePiece(full);
    c := DecodeChar(full);
    assert full[..w] == full && bytes[..n] <= full;
  }

  /** The first piece is decoded if it is a character, and replaced if the bytes start with no character. */
  lemma {:induction false} DecodeExact(bytes: seq<Byte>, c: char)
    requires bytes != []
    ensures DecodeChar(bytes) == 0xFFFD as char || EncodeChar(DecodeChar(bytes)) <= bytes
    ensures EncodeChar(c) <= bytes ==> DecodeChar(bytes) == c && Piece(bytes) == |EncodeChar(c)|
  {
    if Piece(bytes) == Width(bytes[0]) {
      CompletePiece(bytes);
    }
    if EncodeChar(c) <= bytes {
      DecodeEncodedChar(c, bytes[|EncodeChar(c)|..]);
      assert bytes == EncodeChar(c) + bytes[|EncodeChar(c)|..];
    }
  }
}
