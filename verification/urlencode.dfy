/** The percent-encoder of the command bar, over Unicode scalar values. */
module UrlEncoding {
  import opened Wrappers
  import opened Sequences
  import opened Utf8

  type Scalar = c: int | 0 <= c < 0xD800 || 0xE000 <= c < 0x11_0000

  // ---- UTF-8, section 3 of RFC 3629 -----------------------------------------------------------

  /** `char::encode_utf8`. */
  function EncodeChar(c: Scalar): (s: Bytes)
    ensures CharLen(s) == |s| > 0
  {
    if c < 0x80 then [c]
    else if c < 0x800 then [0xC0 + c / 0x40, 0x80 + c % 0x40]
    else if c < 0x1_0000 then [0xE0 + c / 0x1000, 0x80 + c / 0x40 % 0x40, 0x80 + c % 0x40]
    else [0xF0 + c / 0x4_0000, 0x80 + c / 0x1000 % 0x40, 0x80 + c / 0x40 % 0x40, 0x80 + c % 0x40]
  }

  /** The value of the character at the start of `s`, given its length. */
  function CharValue(s: Bytes): int
    requires CharLen(s) > 0
  {
    var n, a: int := CharLen(s), s[0];
    if n == 1 then a
    else
      var b: int := s[1];
      if n == 2 then (a - 0xC0) * 0x40 + (b - 0x80)
      else
        var c: int := s[2];
        if n == 3 then (a - 0xE0) * 0x1000 + (b - 0x80) * 0x40 + (c - 0x80)
        else
          var d: int := s[3];
          (a - 0xF0) * 0x4_0000 + (b - 0x80) * 0x1000 + (c - 0x80) * 0x40 + (d - 0x80)
  }

  lemma DivideTwice(c: nat, d: nat)
    requires d == 0x40 || d == 0x1000
    ensures c / 0x40 / d == c / (0x40 * d)
  {
  }

  lemma Base64Digits(c: nat)
    ensures c == c / 0x40 * 0x40 + c % 0x40
    ensures c == c / 0x1000 * 0x1000 + c / 0x40 % 0x40 * 0x40 + c % 0x40
    ensures c == c / 0x4_0000 * 0x4_0000 + c / 0x1000 % 0x40 * 0x1000 + c / 0x40 % 0x40 * 0x40 + c % 0x40
  {
    DivideTwice(c, 0x40);
    DivideTwice(c, 0x1000);
    DivideTwice(c / 0x40, 0x40);
  }

  lemma CharValueOfEncoding(c: Scalar, rest: Bytes)
    ensures CharLen(EncodeChar(c) + rest) == |EncodeChar(c)|
    ensures CharValue(EncodeChar(c) + rest) == c
  {
    CharLenOfPrefix(EncodeChar(c), rest);
    Base64Digits(c);
  }

  function EncodeUtf8(s: seq<Scalar>): Bytes {
    if s == [] then [] else EncodeChar(s[0]) + EncodeUtf8(s[1..])
  }

  lemma {:induction false} EncodingIsValid(s: seq<Scalar>)
    ensures Valid(EncodeUtf8(s))
  {
    if s != [] {
      CharLenOfPrefix(EncodeChar(s[0]), EncodeUtf8(s[1..]));
      EncodingIsValid(s[1..]);
    }
  }

  lemma {:induction false} EncodingIsInjective(s: seq<Scalar>, t: seq<Scalar>)
    requires EncodeUtf8(s) == EncodeUtf8(t)
    ensures s == t
  {
    if s != [] && t != [] {
      var n := |EncodeChar(s[0])|;
      CharValueOfEncoding(s[0], EncodeUtf8(s[1..]));
      CharValueOfEncoding(t[0], EncodeUtf8(t[1..]));
      assert EncodeUtf8(s)[n..] == EncodeUtf8(s[1..]);
      assert EncodeUtf8(t)[n..] == EncodeUtf8(t[1..]);
      EncodingIsInjective(s[1..], t[1..]);
    }
  }

  /** The number of octets by range, and the bits they carry: the table of section 3 of RFC 3629. */
  lemma EncodingTable(c: Scalar)
    ensures var s := EncodeChar(c);
            && (c <= 0x7F ==> s == [c])
            && (0x80 <= c <= 0x7FF ==> |s| == 2 && (s[0] as int - 0xC0) * 64 + (s[1] as int - 0x80) == c)
            && (0x800 <= c <= 0xFFFF ==>
                  |s| == 3 && (s[0] as int - 0xE0) * 4096 + (s[1] as int - 0x80) * 64 + (s[2] as int - 0x80) == c)
            && (0x1_0000 <= c ==>
                  |s| == 4 && (s[0] as int - 0xF0) * 262144 + (s[1] as int - 0x80) * 4096 + (s[2] as int - 0x80) * 64 + (s[3] as int - 0x80) == c)
            && s[0] < 0xF5 && !IsTail(s[0]) && forall k :: 1 <= k < |s| ==> 0x80 <= s[k] <= 0xBF
  {
    Base64Digits(c);
  }

  predicate IsScalar(c: int) {
    0 <= c < 0xD800 || 0xE000 <= c < 0x11_0000
  }

  lemma DecodesTwo(s: Bytes)
    requires CharLen(s) == 2
    ensures IsScalar(CharValue(s)) && EncodeChar(CharValue(s)) == [s[0], s[1]]
  {
    TwoDigits(s[0] as int - 0xC0, s[1] as int - 0x80);
  }

  lemma DecodesThree(s: Bytes)
    requires CharLen(s) == 3
    ensures IsScalar(CharValue(s)) && EncodeChar(CharValue(s)) == [s[0], s[1], s[2]]
  {
    TwoDigits(s[0] as int - 0xE0, s[1] as int - 0x80);
    TwoDigits((s[0] as int - 0xE0) * 64 + (s[1] as int - 0x80), s[2] as int - 0x80);
    DivideTwice(CharValue(s), 0x40);
  }

  lemma FourDigits(a: int, b: int, c: int, d: int)
    requires 0 <= a && 0 <= b < 64 && 0 <= c < 64 && 0 <= d < 64
    ensures var v := a * 0x4_0000 + b * 0x1000 + c * 0x40 + d;
            v / 0x4_0000 == a && v / 0x1000 % 0x40 == b && v / 0x40 % 0x40 == c && v % 0x40 == d
  {
    var v := a * 0x4_0000 + b * 0x1000 + c * 0x40 + d;
    TwoDigits(a, b);
    TwoDigits(a * 64 + b, c);
    TwoDigits(a * 4096 + b * 64 + c, d);
    DivideTwice(v, 0x40);
    DivideTwice(v, 0x1000);
    DivideTwice(v / 0x40, 0x40);
  }

  lemma DecodesFour(s: Bytes)
    requires CharLen(s) == 4
    ensures IsScalar(CharValue(s)) && EncodeChar(CharValue(s)) == [s[0], s[1], s[2], s[3]]
  {
    FourDigits(s[0] as int - 0xF0, s[1] as int - 0x80, s[2] as int - 0x80, s[3] as int - 0x80);
  }

  lemma DecodesToScalar(s: Bytes)
    requires CharLen(s) > 0
    ensures IsScalar(CharValue(s)) && EncodeChar(CharValue(s)) == s[..CharLen(s)]
  {
    if CharLen(s) == 2 {
      DecodesTwo(s);
    } else if CharLen(s) == 3 {
      DecodesThree(s);
    } else if CharLen(s) == 4 {
      DecodesFour(s);
    }
  }

  lemma TwoDigits(hi: int, lo: int)
    requires 0 <= hi && 0 <= lo < 64
    ensures (hi * 64 + lo) / 64 == hi && (hi * 64 + lo) % 64 == lo
  {
  }

  /** The valid byte strings are exactly the encodings: section 4 of RFC 3629 against its section 3. */
  lemma {:induction false} ValidIsEncoded(s: Bytes) returns (chars: seq<Scalar>)
    requires Valid(s)
    ensures EncodeUtf8(chars) == s
    decreases |s|
  {
    if s == [] {
      chars := [];
    } else {
      var rest := ValidIsEncoded(s[CharLen(s)..]);
      DecodesToScalar(s);
      chars := [CharValue(s)] + rest;
      assert s == s[..CharLen(s)] + s[CharLen(s)..];
    }
  }

  // ---- percent-encoding, sections 2.1 and 2.3 of RFC 3986 ----------------------------------------

  predicate IsAlphanumeric(c: int) {
    0x30 <= c <= 0x39 || 0x41 <= c <= 0x5A || 0x61 <= c <= 0x7A
  }

  /** ALPHA / DIGIT / "-" / "." / "_" / "~" */
  predicate IsUnreserved(c: int) {
    IsAlphanumeric(c) || c == 0x2D || c == 0x5F || c == 0x2E || c == 0x7E
  }

  function HexDigit(n: nat): Byte
    requires n < 16
  {
    if n < 10 then 0x30 + n else 0x41 + n - 10
  }

  const PERCENT: Byte := 0x25

  function Triplet(b: Byte): Bytes {
    [PERCENT, HexDigit(b / 16), HexDigit(b % 16)]
  }

  function Triplets(s: Bytes): Bytes {
    if s == [] then [] else Triplet(s[0]) + Triplets(s[1..])
  }

  function UrlEncode(s: seq<Scalar>): Bytes {
    if s == [] then []
    else (if IsUnreserved(s[0]) then [s[0]] else Triplets(EncodeChar(s[0]))) + UrlEncode(s[1..])
  }

  /** The value of a hexadecimal digit of either case, as a reader of RFC 3986 accepts it. */
  function HexValue(b: Byte): Option<nat> {
    if 0x30 <= b <= 0x39 then Some(b - 0x30)
    else if 0x41 <= b <= 0x46 then Some(b - 0x41 + 10)
    else if 0x61 <= b <= 0x66 then Some(b - 0x61 + 10)
    else None
  }

  /** Percent-decoding as any receiver does it; a percent sign without two digits is an error. */
  function PercentDecode(t: Bytes): Option<Bytes> {
    if t == [] then Some([])
    else if t[0] != PERCENT then
      match PercentDecode(t[1..]) case None => None case Some(rest) => Some([t[0]] + rest)
    else if |t| < 3 then None
    else
      match (HexValue(t[1]), HexValue(t[2]), PercentDecode(t[3..]))
      case (Some(h), Some(l), Some(rest)) => Some([16 * h + l] + rest)
      case _ => None
  }

  predicate IsUpperHex(b: Byte) {
    0x30 <= b <= 0x39 || 0x41 <= b <= 0x46
  }

  /** Unreserved characters and percent signs followed by two uppercase digits, and nothing else. */
  predicate IsEncoded(t: Bytes) {
    t == []
    || (IsUnreserved(t[0]) && IsEncoded(t[1..]))
    || (t[0] == PERCENT && |t| >= 3 && IsUpperHex(t[1]) && IsUpperHex(t[2]) && IsEncoded(t[3..]))
  }

  lemma TripletDecodes(b: Byte, t: Bytes, rest: Bytes)
    requires PercentDecode(t) == Some(rest)
    ensures PercentDecode(Triplet(b) + t) == Some([b] + rest)
  {
    assert (Triplet(b) + t)[3..] == t;
  }

  lemma TripletIsEncoded(b: Byte, t: Bytes)
    requires IsEncoded(t)
    ensures IsEncoded(Triplet(b) + t)
  {
    assert (Triplet(b) + t)[3..] == t;
  }

  lemma {:induction false} TripletsDecode(s: Bytes, t: Bytes, rest: Bytes)
    requires PercentDecode(t) == Some(rest)
    ensures PercentDecode(Triplets(s) + t) == Some(s + rest)
  {
    if s == [] {
      assert Triplets(s) + t == t && s + rest == rest;
    } else {
      TripletsDecode(s[1..], t, rest);
      TripletDecodes(s[0], Triplets(s[1..]) + t, s[1..] + rest);
      ConcatAssociates(Triplet(s[0]), Triplets(s[1..]), t);
      ConcatAssociates([s[0]], s[1..], rest);
      assert s == [s[0]] + s[1..];
    }
  }

  lemma {:induction false} TripletsAreEncoded(s: Bytes, t: Bytes)
    requires IsEncoded(t)
    ensures IsEncoded(Triplets(s) + t)
  {
    if s == [] {
      assert Triplets(s) + t == t;
    } else {
      TripletsAreEncoded(s[1..], t);
      TripletIsEncoded(s[0], Triplets(s[1..]) + t);
      ConcatAssociates(Triplet(s[0]), Triplets(s[1..]), t);
    }
  }

  /** Decoding gives back the UTF-8 bytes of the input, and the output uses only unreserved characters and triplets. */
  lemma {:induction false} UrlEncodeRoundTrip(s: seq<Scalar>)
    ensures PercentDecode(UrlEncode(s)) == Some(EncodeUtf8(s))
    ensures IsEncoded(UrlEncode(s))
  {
    if s != [] {
      UrlEncodeRoundTrip(s[1..]);
      if IsUnreserved(s[0]) {
        assert UrlEncode(s)[1..] == UrlEncode(s[1..]);
      } else {
        TripletsDecode(EncodeChar(s[0]), UrlEncode(s[1..]), EncodeUtf8(s[1..]));
        TripletsAreEncoded(EncodeChar(s[0]), UrlEncode(s[1..]));
      }
    }
  }

  lemma {:induction false} UrlEncodeOfConcat(s: seq<Scalar>, t: seq<Scalar>)
    ensures UrlEncode(s + t) == UrlEncode(s) + UrlEncode(t)
  {
    if s == [] {
      assert s + t == t;
    } else {
      var head := if IsUnreserved(s[0]) then [s[0]] else Triplets(EncodeChar(s[0]));
      UrlEncodeOfConcat(s[1..], t);
      DropOfAppend(s, t, 1);
      ConcatAssociates(head, UrlEncode(s[1..]), UrlEncode(t));
    }
  }

  /** The digits in their upper-case form. */
  const HEX: Bytes :=
    [0x30, 0x31, 0x32, 0x33, 0x34, 0x35, 0x36, 0x37, 0x38, 0x39, 0x41, 0x42, 0x43, 0x44, 0x45, 0x46]

  lemma {:induction false} TripletsInOrder(s: Bytes, k: nat)
    requires k < |s|
    ensures |Triplets(s)| == 3 * |s|
    ensures Triplets(s)[3 * k] == 0x25
    ensures Triplets(s)[3 * k + 1] == HEX[s[k] / 16] && Triplets(s)[3 * k + 2] == HEX[s[k] % 16]
  {
    if |s| > 1 {
      TripletsInOrder(s[1..], if k > 0 then k - 1 else 0);
    } else {
      assert Triplets(s[1..]) == [];
    }
  }

  /**
    Character by character: letters, digits and "-", ".", "_", "~" stand for themselves; of every other character
    each octet becomes a percent sign and its two upper-case digits.
   */
  lemma CharByChar(c: Scalar, k: nat)
    ensures var out, octets := UrlEncode([c]), EncodeChar(c);
            if 0x61 <= c <= 0x7A || 0x41 <= c <= 0x5A || 0x30 <= c <= 0x39 || c in {0x2D, 0x2E, 0x5F, 0x7E}
            then out == [c]
            else
              && |out| == 3 * |octets|
              && (k < |octets| ==> out[3 * k] == 0x25 && out[3 * k + 1] == HEX[octets[k] / 16] && out[3 * k + 2] == HEX[octets[k] % 16])
  {
    var octets := EncodeChar(c);
    assert UrlEncode([c]) == (if IsUnreserved(c) then [c] else Triplets(octets)) + UrlEncode([]);
    TripletsInOrder(octets, if k < |octets| then k else 0);
  }

  lemma UrlEncodeIsInjective(s: seq<Scalar>, t: seq<Scalar>)
    requires UrlEncode(s) == UrlEncode(t)
    ensures s == t
  {
    UrlEncodeRoundTrip(s);
    UrlEncodeRoundTrip(t);
    EncodingIsInjective(s, t);
  }
}
