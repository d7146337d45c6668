/** Which bits become which character: base64url bit by bit, as section 5 of RFC 4648 has it. */
module Base64Bits {
  import opened Bytes
  import opened Groups
  import opened Base64Url

  const TABLE := "ABCDEFGHIJKLMNOPQRSTUVWXYZ" + "abcdefghijklmnopqrstuvwxyz" + "0123456789" + "-_"

  /** Bit k of a byte, the most significant first. */
  function BitOf(b: Byte, k: nat): int
    requires k < 8
  {
    b / Place(k) % 2
  }

  function Place(k: nat): nat
    requires k < 8
  {
    if k == 0 then 128 else if k == 1 then 64 else if k == 2 then 32 else if k == 3 then 16
    else if k == 4 then 8 else if k == 5 then 4 else if k == 6 then 2 else 1
  }

  /** Bit p of the byte string, zero behind its end. */
  function Bit(x: seq<Byte>, p: nat): int {
    if x == [] then 0 else if p < 8 then BitOf(x[0], p) else Bit(x[1..], p - 8)
  }

  /** Bits 6i to 6i + 5. */
  function SextetAt(x: seq<Byte>, i: nat): int {
    32 * Bit(x, 6 * i) + 16 * Bit(x, 6 * i + 1) + 8 * Bit(x, 6 * i + 2) + 4 * Bit(x, 6 * i + 3) + 2 * Bit(x, 6 * i + 4) + Bit(x, 6 * i + 5)
  }

  lemma Halves(b: Byte)
    ensures b / 2 / 2 == b / 4 && b / 4 / 2 == b / 8 && b / 8 / 2 == b / 16
    ensures b / 16 / 2 == b / 32 && b / 32 / 2 == b / 64 && b / 64 / 2 == b / 128 && b / 128 / 2 == 0
  {
  }

  lemma SumOfHalves(b: int, h1: int, h2: int, h3: int, h4: int, h5: int, h6: int, h7: int)
    requires h1 == b / 2 && h2 == h1 / 2 && h3 == h2 / 2 && h4 == h3 / 2 && h5 == h4 / 2 && h6 == h5 / 2 && h7 == h6 / 2 && h7 / 2 == 0
    ensures h2 == 32 * (h7 % 2) + 16 * (h6 % 2) + 8 * (h5 % 2) + 4 * (h4 % 2) + 2 * (h3 % 2) + h2 % 2
    ensures h4 == 8 * (h7 % 2) + 4 * (h6 % 2) + 2 * (h5 % 2) + h4 % 2
    ensures h6 == 2 * (h7 % 2) + h6 % 2
    ensures b - 4 * h2 == 2 * (h1 % 2) + b % 2
    ensures b - 16 * h4 == 8 * (h3 % 2) + 4 * (h2 % 2) + 2 * (h1 % 2) + b % 2
    ensures b - 64 * h6 == 32 * (h5 % 2) + 16 * (h4 % 2) + 8 * (h3 % 2) + 4 * (h2 % 2) + 2 * (h1 % 2) + b % 2
    ensures b == 128 * (h7 % 2) + 64 * (h6 % 2) + 32 * (h5 % 2) + 16 * (h4 % 2) + 8 * (h3 % 2) + 4 * (h2 % 2) + 2 * (h1 % 2) + b % 2
  {
    assert h6 == 2 * h7 + h6 % 2 && h7 == h7 % 2;
    assert h5 == 2 * h6 + h5 % 2 && h4 == 2 * h5 + h4 % 2 && h3 == 2 * h4 + h3 % 2;
    assert h2 == 2 * h3 + h2 % 2 && h1 == 2 * h2 + h1 % 2 && b == 2 * h1 + b % 2;
  }

  /** The upper and lower parts of a byte in terms of its bits. */
  lemma ByteIsBits(b: Byte)
    ensures b / 4 == 32 * BitOf(b, 0) + 16 * BitOf(b, 1) + 8 * BitOf(b, 2) + 4 * BitOf(b, 3) + 2 * BitOf(b, 4) + BitOf(b, 5)
    ensures b % 4 == 2 * BitOf(b, 6) + BitOf(b, 7)
    ensures b / 16 == 8 * BitOf(b, 0) + 4 * BitOf(b, 1) + 2 * BitOf(b, 2) + BitOf(b, 3)
    ensures b % 16 == 8 * BitOf(b, 4) + 4 * BitOf(b, 5) + 2 * BitOf(b, 6) + BitOf(b, 7)
    ensures b / 64 == 2 * BitOf(b, 0) + BitOf(b, 1)
    ensures b % 64 == 32 * BitOf(b, 2) + 16 * BitOf(b, 3) + 8 * BitOf(b, 4) + 4 * BitOf(b, 5) + 2 * BitOf(b, 6) + BitOf(b, 7)
  {
    Halves(b);
    SumOfHalves(b, b / 2, b / 4, b / 8, b / 16, b / 32, b / 64, b / 128);
  }

  lemma BitsOfByte(x: seq<Byte>, n: nat, k: nat)
    requires n < |x| && n < 3 && k < 8
    ensures Bit(x, 8 * n + k) == BitOf(x[n], k)
  {
    if n > 0 {
      BitsOfByte(x[1..], n - 1, k);
    }
  }

  lemma NoMoreBits(x: seq<Byte>, p: nat)
    requires 8 * |x| <= p
    ensures Bit(x, p) == 0
    decreases |x|
  {
    if x != [] {
      NoMoreBits(x[1..], p - 8);
    }
  }

  /** Bit p of up to three bytes, padded with zero bytes. */
  lemma BitOfGroup(g: seq<Byte>, a: Byte, b: Byte, c: Byte, p: nat)
    requires 1 <= |g| <= 3 && a == g[0] && b == (if |g| > 1 then g[1] else 0) && c == (if |g| > 2 then g[2] else 0) && p < 24
    ensures Bit(g, p) == if p < 8 then BitOf(a, p) else if p < 16 then BitOf(b, p - 8) else BitOf(c, p - 16)
  {
    if p < 8 {
      BitsOfByte(g, 0, p);
    } else if p < 16 {
      if |g| > 1 { BitsOfByte(g, 1, p - 8); } else { NoMoreBits(g, p); ZeroHasNoBits(p - 8); }
    } else {
      if |g| > 2 { BitsOfByte(g, 2, p - 16); } else { NoMoreBits(g, p); ZeroHasNoBits(p - 16); }
    }
  }

  lemma ZeroHasNoBits(k: nat)
    requires k < 8
    ensures BitOf(0, k) == 0
  {
  }

  lemma FirstSextetBits(g: seq<Byte>, a: Byte, b: Byte, c: Byte)
    requires 1 <= |g| <= 3 && a == g[0] && b == (if |g| > 1 then g[1] else 0) && c == (if |g| > 2 then g[2] else 0)
    ensures SextetAt(g, 0) == a / 4
  {
    BitOfGroup(g, a, b, c, 0);
    BitOfGroup(g, a, b, c, 1);
    BitOfGroup(g, a, b, c, 2);
    BitOfGroup(g, a, b, c, 3);
    BitOfGroup(g, a, b, c, 4);
    BitOfGroup(g, a, b, c, 5);
    ByteIsBits(a);
  }

  lemma SecondSextetBits(g: seq<Byte>, a: Byte, b: Byte, c: Byte)
    requires 1 <= |g| <= 3 && a == g[0] && b == (if |g| > 1 then g[1] else 0) && c == (if |g| > 2 then g[2] else 0)
    ensures SextetAt(g, 1) == a % 4 * 16 + b / 16
  {
    BitOfGroup(g, a, b, c, 6);
    BitOfGroup(g, a, b, c, 7);
    BitOfGroup(g, a, b, c, 8);
    BitOfGroup(g, a, b, c, 9);
    BitOfGroup(g, a, b, c, 10);
    BitOfGroup(g, a, b, c, 11);
    ByteIsBits(a);
    ByteIsBits(b);
  }

  lemma ThirdSextetBits(g: seq<Byte>, a: Byte, b: Byte, c: Byte)
    requires 1 <= |g| <= 3 && a == g[0] && b == (if |g| > 1 then g[1] else 0) && c == (if |g| > 2 then g[2] else 0)
    ensures SextetAt(g, 2) == b % 16 * 4 + c / 64
  {
    BitOfGroup(g, a, b, c, 12);
    BitOfGroup(g, a, b, c, 13);
    BitOfGroup(g, a, b, c, 14);
    BitOfGroup(g, a, b, c, 15);
    BitOfGroup(g, a, b, c, 16);
    BitOfGroup(g, a, b, c, 17);
    ByteIsBits(b);
    ByteIsBits(c);
  }

  lemma FourthSextetBits(g: seq<Byte>, a: Byte, b: Byte, c: Byte)
    requires 1 <= |g| <= 3 && a == g[0] && b == (if |g| > 1 then g[1] else 0) && c == (if |g| > 2 then g[2] else 0)
    ensures SextetAt(g, 3) == c % 64
  {
    BitOfGroup(g, a, b, c, 18);
    BitOfGroup(g, a, b, c, 19);
    BitOfGroup(g, a, b, c, 20);
    BitOfGroup(g, a, b, c, 21);
    BitOfGroup(g, a, b, c, 22);
    BitOfGroup(g, a, b, c, 23);
    ByteIsBits(c);
  }

  lemma GroupSextet(g: seq<Byte>, a: Byte, b: Byte, c: Byte, i: nat)
    requires 1 <= |g| <= 3 && a == g[0] && b == (if |g| > 1 then g[1] else 0) && c == (if |g| > 2 then g[2] else 0) && i < 4
    ensures SextetAt(g, i) == Sextets(a, b, c)[i]
  {
    match i
    case 0 => FirstSextetBits(g, a, b, c);
    case 1 => SecondSextetBits(g, a, b, c);
    case 2 => ThirdSextetBits(g, a, b, c);
    case _ => FourthSextetBits(g, a, b, c);
  }

  lemma GroupBits(g: seq<Byte>, i: nat)
    requires 1 <= |g| <= 3 && i <= |g|
    ensures EncodeGroup(g)[i] == SextetAt(g, i)
  {
    GroupSextet(g, g[0], if |g| > 1 then g[1] else 0, if |g| > 2 then g[2] else 0, i);
  }

  lemma ShiftedBit(x: seq<Byte>, p: nat)
    requires |x| >= 3
    ensures Bit(x, p + 24) == Bit(x[3..], p)
    ensures p < 24 ==> Bit(x, p) == Bit(x[..3], p)
  {
    assert x[1..][1..] == x[2..] && x[2..][1..] == x[3..];
    assert Bit(x, p + 24) == Bit(x[1..], p + 16) == Bit(x[2..], p + 8) == Bit(x[3..], p);
    if p < 24 {
      var n := if p < 8 then 0 else if p < 16 then 1 else 2;
      BitsOfByte(x, n, p - 8 * n);
      BitsOfByte(x[..3], n, p - 8 * n);
    }
  }

  lemma ShiftedSextet(x: seq<Byte>, i: nat)
    requires |x| >= 3
    ensures SextetAt(x, i + 4) == SextetAt(x[3..], i)
    ensures i < 4 ==> SextetAt(x, i) == SextetAt(x[..3], i)
  {
    ShiftedBit(x, 6 * i);
    ShiftedBit(x, 6 * i + 1);
    ShiftedBit(x, 6 * i + 2);
    ShiftedBit(x, 6 * i + 3);
    ShiftedBit(x, 6 * i + 4);
    ShiftedBit(x, 6 * i + 5);
  }

  lemma {:induction false} EncodedValue(x: seq<Byte>, i: nat)
    requires i < |EncodeValues(x)|
    ensures EncodeValues(x)[i] == SextetAt(x, i)
  {
    if |x| <= 3 {
      GroupBits(x, i);
    } else if i < 4 {
      GroupBits(x[..3], i);
      ShiftedSextet(x, i);
    } else {
      EncodedValue(x[3..], i - 4);
      ShiftedSextet(x, i - 4);
    }
  }

  lemma TableAt(v: Sextet)
    ensures |TABLE| == 64 && TABLE[v] == UrlSafe(CharOf(v))
  {
    assert |UPPER| == 26 && |LOWER| == 26 && |DIGITS| == 10;
    if v < 62 {
      CharAt(v);
      assert TABLE[v] == (UPPER + LOWER + DIGITS)[v] == CHARS[v];
    }
  }

  /** Character i of an encoding is the one that the table gives for bits 6i to 6i + 5. */
  lemma EncodedChar(x: seq<Byte>, i: nat)
    requires i < |EncodeText(x)|
    ensures 0 <= SextetAt(x, i) < |TABLE| == 64
    ensures EncodeText(x)[i] == TABLE[SextetAt(x, i)]
  {
    TextOfValues(x);
    EncodedValue(x, i);
    TableAt(EncodeValues(x)[i]);
  }

  // ----- decoding -----

  /** Bit p of a sequence of sextets, zero behind its end. */
  function SextetBit(v: seq<Sextet>, p: nat): int {
    if v == [] then 0 else if p < 6 then BitOf(v[0], p + 2) else SextetBit(v[1..], p - 6)
  }

  /** Bits 8j to 8j + 7. */
  function OctetAt(v: seq<Sextet>, j: nat): int {
    128 * SextetBit(v, 8 * j) + 64 * SextetBit(v, 8 * j + 1) + 32 * SextetBit(v, 8 * j + 2) + 16 * SextetBit(v, 8 * j + 3)
    + 8 * SextetBit(v, 8 * j + 4) + 4 * SextetBit(v, 8 * j + 5) + 2 * SextetBit(v, 8 * j + 6) + SextetBit(v, 8 * j + 7)
  }

  lemma BitsOfSextet(v: seq<Sextet>, n: nat, k: nat)
    requires n < |v| && n < 4 && k < 6
    ensures SextetBit(v, 6 * n + k) == BitOf(v[n], k + 2)
  {
    if n > 0 {
      BitsOfSextet(v[1..], n - 1, k);
    }
  }

  lemma NoMoreSextets(v: seq<Sextet>, p: nat)
    requires 6 * |v| <= p
    ensures SextetBit(v, p) == 0
    decreases |v|
  {
    if v != [] {
      NoMoreSextets(v[1..], p - 6);
    }
  }

  lemma BitOfSextet(t: seq<Sextet>, x: Sextet, n: nat, k: nat)
    requires n < 4 && k < 6 && x == (if |t| > n then t[n] else 0)
    ensures SextetBit(t, 6 * n + k) == BitOf(x, k + 2)
  {
    if n < |t| {
      BitsOfSextet(t, n, k);
    } else {
      NoMoreSextets(t, 6 * n + k);
      ZeroHasNoBits(k + 2);
    }
  }

  lemma DecodedGroupBits(t: seq<Sextet>, j: nat)
    requires 1 <= |t| <= 4 && j < |t| - 1
    ensures DecodeGroup(t)[j] == OctetAt(t, j)
  {
    var w, x, y, z := t[0], if |t| > 1 then t[1] else 0, if |t| > 2 then t[2] else 0, if |t| > 3 then t[3] else 0;
    if j == 0 {
      FirstOctetBits(t, w, x);
    } else if j == 1 {
      SecondOctetBits(t, x, y);
    } else {
      ThirdOctetBits(t, y, z);
    }
  }

  lemma SmallByte(x: Sextet)
    ensures BitOf(x, 0) == BitOf(x, 1) == 0
  {
  }

  lemma FirstOctetBits(t: seq<Sextet>, w: Sextet, x: Sextet)
    requires |t| > 1 && w == t[0] && x == t[1]
    ensures OctetAt(t, 0) == w * 4 + x / 16
  {
    BitOfSextet(t, w, 0, 0);
    BitOfSextet(t, w, 0, 1);
    BitOfSextet(t, w, 0, 2);
    BitOfSextet(t, w, 0, 3);
    BitOfSextet(t, w, 0, 4);
    BitOfSextet(t, w, 0, 5);
    BitOfSextet(t, x, 1, 0);
    BitOfSextet(t, x, 1, 1);
    SmallByte(w);
    SmallByte(x);
    ByteIsBits(w);
    ByteIsBits(x);
  }

  lemma SecondOctetBits(t: seq<Sextet>, x: Sextet, y: Sextet)
    requires |t| > 2 && x == t[1] && y == t[2]
    ensures OctetAt(t, 1) == x % 16 * 16 + y / 4
  {
    BitOfSextet(t, x, 1, 2);
    BitOfSextet(t, x, 1, 3);
    BitOfSextet(t, x, 1, 4);
    BitOfSextet(t, x, 1, 5);
    BitOfSextet(t, y, 2, 0);
    BitOfSextet(t, y, 2, 1);
    BitOfSextet(t, y, 2, 2);
    BitOfSextet(t, y, 2, 3);
    SmallByte(y);
    ByteIsBits(x);
    ByteIsBits(y);
  }

  lemma WholeSextet(z: Sextet)
    ensures z == 32 * BitOf(z, 2) + 16 * BitOf(z, 3) + 8 * BitOf(z, 4) + 4 * BitOf(z, 5) + 2 * BitOf(z, 6) + BitOf(z, 7)
  {
    ByteIsBits(z);
  }

  lemma LastTwoBits(y: Sextet)
    ensures y % 4 == 2 * BitOf(y, 6) + BitOf(y, 7)
  {
    ByteIsBits(y);
  }

  lemma ThirdOctetBits(t: seq<Sextet>, y: Sextet, z: Sextet)
    requires |t| > 3 && y == t[2] && z == t[3]
    ensures OctetAt(t, 2) == y % 4 * 64 + z
  {
    BitOfSextet(t, y, 2, 4);
    BitOfSextet(t, y, 2, 5);
    BitOfSextet(t, z, 3, 0);
    BitOfSextet(t, z, 3, 1);
    BitOfSextet(t, z, 3, 2);
    BitOfSextet(t, z, 3, 3);
    BitOfSextet(t, z, 3, 4);
    BitOfSextet(t, z, 3, 5);
    LastTwoBits(y);
    WholeSextet(z);
  }

  lemma ShiftedSextetBit(v: seq<Sextet>, p: nat)
    requires |v| >= 4
    ensures SextetBit(v, p + 24) == SextetBit(v[4..], p)
    ensures p < 24 ==> SextetBit(v, p) == SextetBit(v[..4], p)
  {
    assert v[1..][1..] == v[2..] && v[2..][1..] == v[3..] && v[3..][1..] == v[4..];
    assert SextetBit(v, p + 24) == SextetBit(v[1..], p + 18) == SextetBit(v[2..], p + 12) == SextetBit(v[3..], p + 6);
    if p < 24 {
      var n := if p < 6 then 0 else if p < 12 then 1 else if p < 18 then 2 else 3;
      BitsOfSextet(v, n, p - 6 * n);
      BitsOfSextet(v[..4], n, p - 6 * n);
    }
  }

  lemma ShiftedOctet(v: seq<Sextet>, j: nat)
    requires |v| >= 4
    ensures OctetAt(v, j + 3) == OctetAt(v[4..], j)
    ensures j < 3 ==> OctetAt(v, j) == OctetAt(v[..4], j)
  {
    ShiftedSextetBit(v, 8 * j);
    ShiftedSextetBit(v, 8 * j + 1);
    ShiftedSextetBit(v, 8 * j + 2);
    ShiftedSextetBit(v, 8 * j + 3);
    ShiftedSextetBit(v, 8 * j + 4);
    ShiftedSextetBit(v, 8 * j + 5);
    ShiftedSextetBit(v, 8 * j + 6);
    ShiftedSextetBit(v, 8 * j + 7);
  }

  lemma {:induction false} DecodedLength(v: seq<Sextet>)
    ensures |DecodeValues(v)| == |v| * 3 / 4
  {
    if |v| > 4 {
      DecodedLength(v[4..]);
    }
  }

  lemma {:induction false} DecodedValue(v: seq<Sextet>, j: nat)
    requires j < |DecodeValues(v)|
    ensures DecodeValues(v)[j] == OctetAt(v, j)
  {
    if |v| <= 4 {
      DecodedGroupBits(v, j);
    } else if j < 3 {
      DecodedGroupBits(v[..4], j);
      ShiftedOctet(v, j);
    } else {
      DecodedValue(v[4..], j - 3);
      ShiftedOctet(v, j - 3);
    }
  }

  /** The decoder reads the character as this value; it takes both alphabets of RFC 4648. */
  predicate Means(c: char, v: Sextet) {
    TABLE[v] == c || (v == 62 && c == '+') || (v == 63 && c == '/')
  }

  lemma MeansStandard(c: char, v: Sextet)
    requires |TABLE| == 64 && Means(c, v)
    ensures Standard(c) == CharOf(v) && CharOf(v) != '='
  {
    TableAt(v);
  }

  /** Text of the alphabet decodes to three quarters as many bytes: byte j is bits 8j to 8j + 7 of what the characters mean. */
  lemma DecodedOctet(s: string, v: seq<Sextet>, j: nat)
    requires |TABLE| == 64 && |v| == |s| && forall i :: 0 <= i < |s| ==> Means(s[i], v[i])
    ensures |DecodeText(s)| == |s| * 3 / 4
    ensures j < |DecodeText(s)| ==> DecodeText(s)[j] == OctetAt(v, j)
  {
    forall i | 0 <= i < |s| ensures Standard(s[i]) == CharsOf(v)[i] && CharsOf(v)[i] != '=' {
      MeansStandard(s[i], v[i]);
    }
    assert MapChars(Standard, s) == CharsOf(v);
    NoPadNoCut(CharsOf(v));
    ReadBack(v);
    DecodedLength(v);
    if j < |DecodeValues(v)| {
      DecodedValue(v, j);
    }
  }

  lemma {:induction false} ReadableConcat(a: string, b: string)
    ensures Readable(a + b) == Readable(a) + Readable(b)
  {
    if b == [] {
      assert a + b == a;
    } else {
      assert (a + b)[..|a + b| - 1] == a + b[..|b| - 1];
      ReadableConcat(a, b[..|b| - 1]);
    }
  }

  lemma {:induction false} UpToPadConcat(a: string, b: string)
    ensures UpToPad(a + b) == if '=' in a then UpToPad(a) else a + UpToPad(b)
  {
    if a == [] {
      assert a + b == b;
    } else {
      assert (a + b)[1..] == a[1..] + b;
      UpToPadConcat(a[1..], b);
    }
  }

  lemma MapConcat(a: string, b: string)
    ensures MapChars(Standard, a + b) == MapChars(Standard, a) + MapChars(Standard, b)
    ensures '=' in MapChars(Standard, a) <==> '=' in a
  {
    if '=' in a {
      var i :| 0 <= i < |a| && a[i] == '=';
      assert Standard('=') == '=';
      assert MapChars(Standard, a)[i] == Standard(a[i]);
    }
    if '=' in MapChars(Standard, a) {
      var i :| 0 <= i < |a| && MapChars(Standard, a)[i] == '=';
      assert Standard(a[i]) == '=';
    }
  }

  /** Characters that mean nothing are skipped. */
  lemma JunkIsSkipped(a: string, c: char, b: string)
    requires c != '=' && c !in TABLE && c != '+' && c != '/'
    ensures DecodeText(a + [c] + b) == DecodeText(a + b)
  {
    JunkHasNoValue(c);
    var a', c', b' := MapChars(Standard, a), MapChars(Standard, [c]), MapChars(Standard, b);
    MapConcat(a + [c], b);
    MapConcat(a, [c]);
    MapConcat(a, b);
    assert c' == [c];
    UpToPadConcat(a' + [c], b');
    UpToPadConcat(a', b');
    UpToPadConcat(a', [c]);
    if '=' !in a' {
      ReadableConcat(a' + [c], UpToPad(b'));
      ReadableConcat(a', [c]);
      ReadableConcat(a', UpToPad(b'));
      assert [c][..0] == "" && Readable([c]) == [];
    }
  }

  lemma JunkHasNoValue(c: char)
    requires c != '=' && c !in TABLE && c != '+' && c != '/'
    ensures ValueOf(Standard(c)) == -1 && Standard(c) == c
  {
    TableAt(62);
    TableAt(63);
    assert UrlSafe(CharOf(62)) == TABLE[62] && UrlSafe(CharOf(63)) == TABLE[63];
    ValueIsInTable(c);
  }

  lemma ValueIsInTable(c: char)
    ensures ValueOf(c) < 64 && (ValueOf(c) >= 0 ==> c in TABLE || c == '+' || c == '/')
  {
    var k := ValueOf(c);
    if 0 <= k < 62 {
      TableAt(k);
      assert TABLE[k] == c;
    }
  }

  /** The first padding character ends the text. */
  lemma PaddingEnds(a: string, b: string)
    ensures DecodeText(a + "=" + b) == DecodeText(a)
  {
    var a', b' := MapChars(Standard, a), MapChars(Standard, b);
    MapConcat(a + "=", b);
    MapConcat(a, "=");
    assert MapChars(Standard, "=") == "=";
    var rest := "=" + b';
    assert rest[0] == '=';
    assert a' + "=" + b' == a' + rest;
    UpToPadConcat(a', rest);
    assert UpToPad(rest) == "" && a' + "" == a';
    if '=' !in a' {
      NoPadNoCut(a');
    }
  }
}
