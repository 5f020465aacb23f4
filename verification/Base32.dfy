/** Base32 without padding (section 6 of RFC 4648), as the address formats use it: five bytes become
    eight characters, and a shorter rest becomes as many characters as it needs. */
module Base32 {
  import opened NodeId
  import opened Wire

  type Digit = d: nat | d < 32

  function CharOf(d: Digit): char {
    if d < 26 then 'A' + d as char else '2' + (d - 26) as char
  }

  /** Table 3 of section 6 of RFC 4648. */
  const ALPHABET := "ABCDEFGHIJKLMNOPQRSTUVWXYZ234567"

  lemma AlphabetIsStandard(d: Digit, c: char)
    ensures |ALPHABET| == 32 && CharOf(d) == ALPHABET[d]
    ensures DigitOf(c) == Ok(d) <==> c == ALPHABET[d]
  {
    CharIsLetter(d);
    CharIsNumeral(d);
  }

  lemma CharIsLetter(d: Digit)
    ensures d < 26 ==> CharOf(d) == ALPHABET[d]
  {
    if d < 13 {
      assert d == 0 || d == 1 || d == 2 || d == 3 || d == 4 || d == 5 || d == 6 || d == 7 || d == 8 || d == 9 || d == 10
          || d == 11 || d == 12;
    } else if d < 26 {
      assert d == 13 || d == 14 || d == 15 || d == 16 || d == 17 || d == 18 || d == 19 || d == 20 || d == 21 || d == 22
          || d == 23 || d == 24 || d == 25;
    }
  }

  lemma CharIsNumeral(d: Digit)
    ensures d >= 26 ==> CharOf(d) == ALPHABET[d]
  {
    assert d < 26 || d == 26 || d == 27 || d == 28 || d == 29 || d == 30 || d == 31;
  }

  function DigitOf(c: char): Result<Digit> {
    if 'A' <= c <= 'Z' then Ok((c - 'A') as int)
    else if '2' <= c <= '7' then Ok((c - '2') as int + 26)
    else Err
  }

  /** How many characters `n` bytes take. */
  function CharCount(n: nat): nat
    requires n <= 5
  {
    if n == 0 then 0 else if n == 1 then 2 else if n == 2 then 4 else if n == 3 then 5 else if n == 4 then 7 else 8
  }

  /** How many bytes `n` characters give; lengths that no encoder produces give none. */
  function ByteCount(n: nat): nat
    requires n <= 8
  {
    if n == 8 then 5 else if n == 7 then 4 else if n == 5 then 3 else if n == 4 then 2 else if n == 2 then 1 else 0
  }

  function Byte0(b: Bytes, i: nat): Byte { if i < |b| then b[i] else 0 }

  /** The eight groups of five bits of five bytes; missing bytes count as zero. */
  function Groups(b: Bytes): (g: seq<Digit>)
    ensures |g| == 8
  {
    var b0, b1, b2, b3, b4 := Byte0(b, 0), Byte0(b, 1), Byte0(b, 2), Byte0(b, 3), Byte0(b, 4);
    [b0 / 8, b0 % 8 * 4 + b1 / 64, b1 / 2 % 32, b1 % 2 * 16 + b2 / 16,
     b2 % 16 * 2 + b3 / 128, b3 / 4 % 32, b3 % 4 * 8 + b4 / 32, b4 % 32]
  }

  function EncodeBlock(b: Bytes): (g: seq<Digit>)
    requires |b| <= 5
    ensures |g| == CharCount(|b|)
  {
    Groups(b)[..CharCount(|b|)]
  }

  function Digit0(g: seq<Digit>, i: nat): Digit { if i < |g| then g[i] else 0 }

  function Octets(g: seq<Digit>): (b: Bytes)
    ensures |b| == 5
  {
    var d0, d1, d2, d3 := Digit0(g, 0), Digit0(g, 1), Digit0(g, 2), Digit0(g, 3);
    var d4, d5, d6, d7 := Digit0(g, 4), Digit0(g, 5), Digit0(g, 6), Digit0(g, 7);
    [d0 * 8 + d1 / 4, d1 % 4 * 64 + d2 * 2 + d3 / 16, d3 % 16 * 16 + d4 / 2,
     d4 % 2 * 128 + d5 * 4 + d6 / 8, d6 % 8 * 32 + d7]
  }

  function DecodeBlock(g: seq<Digit>): (b: Bytes)
    requires |g| <= 8
    ensures |b| == ByteCount(|g|)
  {
    Octets(g)[..ByteCount(|g|)]
  }

  /** The number that digits to base 32 spell, the first one highest. */
  function Number(g: seq<Digit>): nat {
    if g == [] then 0 else 32 * Number(g[..|g| - 1]) + g[|g| - 1]
  }

  /** Five bytes and their eight groups spell the same number of 40 bits. */
  lemma GroupsSpellTheBytes(b: Bytes)
    requires |b| == 5
    ensures Number(Groups(b)) == Value(b)
  {
    var g := Groups(b);
    assert g == [g[0], g[1], g[2], g[3], g[4], g[5], g[6], g[7]];
    EightDigits(g[0], g[1], g[2], g[3], g[4], g[5], g[6], g[7]);
    assert b == [b[0], b[1], b[2], b[3], b[4]];
    FiveBytes(b[0], b[1], b[2], b[3], b[4]);
    SplitByte(b[0], 8);
    SplitByte(b[1], 64);
    SplitByte(b[2], 16);
    SplitByte(b[3], 128);
    SplitByte(b[4], 32);
    SecondByte(b[1], b[2]);
    FourthByte(b[3], b[4]);
  }

  lemma OneMoreDigit(g: seq<Digit>, d: nat)
    requires d < 32
    ensures Number(g + [d]) == 32 * Number(g) + d
  {
    assert (g + [d])[..|g|] == g;
  }

  lemma EightDigits(a: nat, b: nat, c: nat, d: nat, e: nat, f: nat, g: nat, h: nat)
    requires a < 32 && b < 32 && c < 32 && d < 32 && e < 32 && f < 32 && g < 32 && h < 32
    ensures Number([a, b, c, d, e, f, g, h])
         == 32 * (32 * (32 * (32 * (32 * (32 * (32 * a + b) + c) + d) + e) + f) + g) + h
  {
    OneMoreDigit([], a);
    OneMoreDigit([a], b);
    OneMoreDigit([a, b], c);
    OneMoreDigit([a, b, c], d);
    OneMoreDigit([a, b, c, d], e);
    OneMoreDigit([a, b, c, d, e], f);
    OneMoreDigit([a, b, c, d, e, f], g);
    OneMoreDigit([a, b, c, d, e, f, g], h);
    assert [] + [a] == [a] && [a] + [b] == [a, b] && [a, b] + [c] == [a, b, c] && [a, b, c] + [d] == [a, b, c, d];
    assert [a, b, c, d] + [e] == [a, b, c, d, e] && [a, b, c, d, e] + [f] == [a, b, c, d, e, f];
    assert [a, b, c, d, e, f] + [g] == [a, b, c, d, e, f, g] && [a, b, c, d, e, f, g] + [h] == [a, b, c, d, e, f, g, h];
  }

  lemma OneMoreByte(b: Bytes, x: nat)
    requires x < 256
    ensures Value(b + [x]) == 256 * Value(b) + x
  {
    assert (b + [x])[..|b|] == b;
  }

  lemma FiveBytes(a: nat, b: nat, c: nat, d: nat, e: nat)
    requires a < 256 && b < 256 && c < 256 && d < 256 && e < 256
    ensures Value([a, b, c, d, e]) == 256 * (256 * (256 * (256 * a + b) + c) + d) + e
  {
    OneMoreByte([], a);
    OneMoreByte([a], b);
    OneMoreByte([a, b], c);
    OneMoreByte([a, b, c], d);
    OneMoreByte([a, b, c, d], e);
    assert [] + [a] == [a] && [a] + [b] == [a, b] && [a, b] + [c] == [a, b, c];
    assert [a, b, c] + [d] == [a, b, c, d] && [a, b, c, d] + [e] == [a, b, c, d, e];
  }

  lemma SplitByte(x: Byte, w: nat)
    requires w > 0
    ensures x == x / w * w + x % w
  {
  }

  // The low bits of one byte and the high bits of the next share a group.

  lemma SecondByte(x: Byte, y: Byte)
    ensures x / 64 * 64 + x / 2 % 32 * 2 + (x % 2 * 16 + y / 16) / 16 == x && (x % 2 * 16 + y / 16) % 16 == y / 16
  {
    assert (x % 2 * 16 + y / 16) / 16 == x % 2;
  }

  lemma FourthByte(x: Byte, y: Byte)
    ensures x / 128 * 128 + x / 4 % 32 * 4 + (x % 4 * 8 + y / 32) / 8 == x && (x % 4 * 8 + y / 32) % 8 == y / 32
  {
    assert (x % 4 * 8 + y / 32) / 8 == x % 4;
  }

  lemma BlockRoundTrip(b: Bytes)
    requires |b| <= 5
    ensures DecodeBlock(EncodeBlock(b)) == b
  {
    SecondByte(Byte0(b, 1), Byte0(b, 2));
    FourthByte(Byte0(b, 3), Byte0(b, 4));
    var o := Octets(EncodeBlock(b));
    assert |b| > 0 ==> o[0] == b[0];
    assert |b| > 1 ==> o[1] == b[1];
    assert |b| > 2 ==> o[2] == b[2];
    assert |b| > 3 ==> o[3] == b[3];
    assert |b| > 4 ==> o[4] == b[4];
  }

  // ---------------------------------------------------------------- whole strings

  function Digits32(b: Bytes): seq<Digit>
    decreases |b|
  {
    if |b| <= 5 then EncodeBlock(b) else EncodeBlock(b[..5]) + Digits32(b[5..])
  }

  function Bytes32(g: seq<Digit>): Bytes
    decreases |g|
  {
    if |g| <= 8 then DecodeBlock(g) else DecodeBlock(g[..8]) + Bytes32(g[8..])
  }

  lemma {:induction false} DigitsRoundTrip(b: Bytes)
    ensures Bytes32(Digits32(b)) == b
    ensures |b| > 0 ==> |Digits32(b)| > 0
    decreases |b|
  {
    if |b| <= 5 {
      BlockRoundTrip(b);
    } else {
      BlockRoundTrip(b[..5]);
      DigitsRoundTrip(b[5..]);
      var g := Digits32(b);
      assert g[..8] == EncodeBlock(b[..5]) && g[8..] == Digits32(b[5..]);
      assert b == b[..5] + b[5..];
    }
  }

  function Chars(g: seq<Digit>): string { seq(|g|, i requires 0 <= i < |g| => CharOf(g[i])) }

  /** The decoder skips line breaks and refuses every other character outside the alphabet. */
  function Values(s: string): Result<seq<Digit>>
    decreases |s|
  {
    if s == "" then Ok([])
    else if s[0] == '\n' || s[0] == '\r' then Values(s[1..])
    else
      match DigitOf(s[0])
      case Err => Err
      case Ok(d) =>
        match Values(s[1..])
        case Err => Err
        case Ok(rest) => Ok([d] + rest)
  }

  lemma {:induction false} CharsRoundTrip(g: seq<Digit>)
    ensures Values(Chars(g)) == Ok(g)
  {
    if g != [] {
      assert Chars(g)[1..] == Chars(g[1..]);
      CharsRoundTrip(g[1..]);
      assert g == [g[0]] + g[1..];
    }
  }

  /** Line breaks are passed over wherever they are. */
  lemma {:induction false} BreaksDoNotMatter(a: string, c: char, b: string)
    requires c == '\n' || c == '\r'
    ensures Values(a + [c] + b) == Values(a + b)
  {
    if a == "" {
      assert a + [c] + b == [c] + b && a + b == b;
      assert ([c] + b)[1..] == b;
    } else {
      assert (a + [c] + b)[0] == a[0] && (a + [c] + b)[1..] == a[1..] + [c] + b;
      assert (a + b)[0] == a[0] && (a + b)[1..] == a[1..] + b;
      BreaksDoNotMatter(a[1..], c, b);
    }
  }

  /** Any other character outside the alphabet spoils the text. */
  lemma {:induction false} StrangersAreRefused(a: string, c: char, b: string)
    requires c != '\n' && c != '\r' && c !in ALPHABET
    ensures Values(a + [c] + b) == Err
  {
    if a == "" {
      assert a + [c] + b == [c] + b;
      if DigitOf(c).Ok? {
        AlphabetIsStandard(DigitOf(c).value, c);
      }
    } else {
      assert (a + [c] + b)[0] == a[0] && (a + [c] + b)[1..] == a[1..] + [c] + b;
      StrangersAreRefused(a[1..], c, b);
    }
  }

  function Encode(b: Bytes): string { Chars(Digits32(b)) }

  function Decode(s: string): Result<Bytes> {
    match Values(s) case Err => Err case Ok(g) => Ok(Bytes32(g))
  }

  predicate InAlphabet(c: char) { 'A' <= c <= 'Z' || '2' <= c <= '7' }

  /** Any bytes, of any number, can be read back from what was printed. */
  lemma RoundTrip(b: Bytes)
    ensures Decode(Encode(b)) == Ok(b)
    ensures forall c :: c in Encode(b) ==> InAlphabet(c)
    ensures b != [] ==> Encode(b) != ""
  {
    DigitsRoundTrip(b);
    CharsRoundTrip(Digits32(b));
  }

  /** Different bytes print differently. */
  lemma EncodeIsInjective(a: Bytes, b: Bytes)
    requires Encode(a) == Encode(b)
    ensures a == b
  {
    RoundTrip(a);
    RoundTrip(b);
  }
}
