/** base64url without padding, as in src/common/JWT.h; section 5 of RFC 4648. */
module Base64Url {
  import opened Bytes
  import opened Groups

  type Sextet = x: int | 0 <= x < 64

  // ----- masks and shifts -----

  /** The masks and shifts of the encoder are the divisions and remainders used below. */
  lemma EncoderMasks(b: bv8)
    ensures (b & 0xfc) >> 2 == b / 4 && (b & 0x03) << 4 == (b % 4) * 16
    ensures (b & 0xf0) >> 4 == b / 16 && (b & 0x0f) << 2 == (b % 16) * 4
    ensures (b & 0xc0) >> 6 == b / 64 && b & 0x3f == b % 64
  {
  }

  /** And so are those of the decoder, for values below 64. */
  lemma DecoderMasks(x: bv8)
    requires x < 64
    ensures x << 2 == x * 4 && (x & 0x30) >> 4 == x / 16
    ensures (x & 0x0f) << 4 == (x % 16) * 16 && (x & 0x3c) >> 2 == x / 4 && (x & 0x03) << 6 == (x % 4) * 64
  {
  }

  function Sextets(a: Byte, b: Byte, c: Byte): seq<Sextet> {
    [a / 4, a % 4 * 16 + b / 16, b % 16 * 4 + c / 64, c % 64]
  }

  function Octets(w: Sextet, x: Sextet, y: Sextet, z: Sextet): seq<Byte> {
    [w * 4 + x / 16, x % 16 * 16 + y / 4, y % 4 * 64 + z]
  }

  /** One to three bytes give one sextet more than there are bytes. */
  function EncodeGroup(g: seq<Byte>): seq<Sextet> {
    if 1 <= |g| <= 3
    then Sextets(g[0], if |g| > 1 then g[1] else 0, if |g| > 2 then g[2] else 0)[..|g| + 1]
    else []
  }

  /** One to four sextets give one byte less. */
  function DecodeGroup(t: seq<Sextet>): seq<Byte> {
    if 1 <= |t| <= 4
    then Octets(t[0], if |t| > 1 then t[1] else 0, if |t| > 2 then t[2] else 0, if |t| > 3 then t[3] else 0)[..|t| - 1]
    else []
  }

  lemma FirstOctet(a: Byte, b: Byte)
    ensures a / 4 * 4 + (a % 4 * 16 + b / 16) / 16 == a
  {
    assert (a % 4 * 16 + b / 16) / 16 == a % 4;
  }

  lemma SecondOctet(a: Byte, b: Byte, c: Byte)
    ensures (a % 4 * 16 + b / 16) % 16 * 16 + (b % 16 * 4 + c / 64) / 4 == b
  {
    assert (a % 4 * 16 + b / 16) % 16 == b / 16;
    assert (b % 16 * 4 + c / 64) / 4 == b % 16;
  }

  lemma ThirdOctet(b: Byte, c: Byte)
    ensures (b % 16 * 4 + c / 64) % 4 * 64 + c % 64 == c
  {
    assert (b % 16 * 4 + c / 64) % 4 == c / 64;
  }

  lemma GroupRoundTrip(g: seq<Byte>)
    requires 1 <= |g| <= 3
    ensures |EncodeGroup(g)| == |g| + 1 && DecodeGroup(EncodeGroup(g)) == g
  {
    var a, b, c := g[0], if |g| > 1 then g[1] else 0, if |g| > 2 then g[2] else 0;
    OctetsOfSextets(a, b, c);
    var t := EncodeGroup(g);
    assert forall i :: 0 <= i < |t| ==> t[i] == Sextets(a, b, c)[i];
    var whole := Octets(t[0], t[1], if |t| > 2 then t[2] else 0, if |t| > 3 then t[3] else 0);
    assert DecodeGroup(t) == whole[..|g|];
  }

  lemma OctetsOfSextets(a: Byte, b: Byte, c: Byte)
    ensures var t := Sextets(a, b, c);
            && Octets(t[0], t[1], t[2], t[3]) == [a, b, c]
            && Octets(t[0], t[1], t[2], 0)[..2] == [a, b]
            && Octets(t[0], t[1], 0, 0)[..1] == [a]
  {
    FirstOctet(a, b);
    SecondOctet(a, b, c);
    ThirdOctet(b, c);
  }

  function EncodeValues(x: seq<Byte>): seq<Sextet> {
    Grouped(EncodeGroup, 3, x)
  }

  function DecodeValues(v: seq<Sextet>): seq<Byte> {
    Grouped(DecodeGroup, 4, v)
  }

  lemma {:induction false} EncodedLength(x: seq<Byte>)
    ensures |EncodeValues(x)| == (4 * |x| + 2) / 3
  {
    if |x| > 3 {
      EncodedLength(x[3..]);
    }
  }

  lemma {:induction false} ValuesRoundTrip(x: seq<Byte>)
    ensures DecodeValues(EncodeValues(x)) == x
  {
    if 1 <= |x| <= 3 {
      GroupRoundTrip(x);
    } else if |x| > 3 {
      var g, rest := EncodeGroup(x[..3]), EncodeValues(x[3..]);
      GroupRoundTrip(x[..3]);
      EncodedLength(x[3..]);
      assert (g + rest)[..4] == g && (g + rest)[4..] == rest;
      ValuesRoundTrip(x[3..]);
    }
  }

  // ----- the alphabet -----

  const UPPER := "ABCDEFGHIJKLMNOPQRSTUVWXYZ"
  const LOWER := "abcdefghijklmnopqrstuvwxyz"
  const DIGITS := "0123456789"
  const CHARS := UPPER + LOWER + DIGITS + "+/"

  /** chars.find(c), -1 for npos. */
  function Find(s: string, c: char): int {
    if s == [] then -1
    else if s[0] == c then 0
    else if Find(s[1..], c) >= 0 then Find(s[1..], c) + 1
    else -1
  }

  /** It is the first position of c, if there is one. */
  lemma {:induction false} FindIsFirst(s: string, c: char)
    ensures -1 <= Find(s, c) < |s|
    ensures Find(s, c) >= 0 ==> s[Find(s, c)] == c && forall i :: 0 <= i < Find(s, c) ==> s[i] != c
    ensures Find(s, c) == -1 ==> forall i :: 0 <= i < |s| ==> s[i] != c
  {
    if s != [] && s[0] != c {
      FindIsFirst(s[1..], c);
      assert forall i :: 0 < i < |s| ==> s[i] == s[1..][i - 1];
    }
  }

  /** The character at a position of the alphabet, and the position of a character, by ranges. */
  function CharOf(i: Sextet): char {
    if i < 26 then 'A' + i as char else if i < 52 then 'a' + (i - 26) as char
    else if i < 62 then '0' + (i - 52) as char else if i == 62 then '+' else '/'
  }

  function ValueOf(c: char): int {
    if 'A' <= c <= 'Z' then c as int - 'A' as int
    else if 'a' <= c <= 'z' then c as int - 'a' as int + 26
    else if '0' <= c <= '9' then c as int - '0' as int + 52
    else if c == '+' then 62
    else if c == '/' then 63
    else -1
  }

  lemma CharAt(i: Sextet)
    ensures |CHARS| == 64 && CHARS[i] == CharOf(i)
  {
    assert |UPPER| == 26 && |LOWER| == 26 && |DIGITS| == 10;
    if i < 26 {
      assert CHARS[i] == UPPER[i];
    } else if i < 52 {
      assert CHARS[i] == LOWER[i - 26];
    } else if i < 62 {
      assert CHARS[i] == DIGITS[i - 52];
    }
  }

  /** The string search finds exactly that position. */
  lemma FindIsValueOf(c: char)
    ensures Find(CHARS, c) == ValueOf(c)
  {
    FindIsFirst(CHARS, c);
    var k, v := Find(CHARS, c), ValueOf(c);
    CharAt(0);
    if v >= 0 {
      CharAt(v);
    }
    if k >= 0 {
      CharAt(k);
      CharsAreDistinct(k);
    }
  }

  lemma CharsAreDistinct(i: Sextet)
    ensures ValueOf(CharOf(i)) == i
  {
  }

  // ----- the codec on text -----

  function UrlSafe(c: char): char {
    if c == '+' then '-' else if c == '/' then '_' else c
  }

  function Standard(c: char): char {
    if c == '-' then '+' else if c == '_' then '/' else c
  }

  function MapChars(f: char -> char, s: string): string {
    seq(|s|, i requires 0 <= i < |s| => f(s[i]))
  }

  function CharsOf(v: seq<Sextet>): string {
    seq(|v|, i requires 0 <= i < |v| => CharOf(v[i]))
  }

  function GroupChars(g: seq<Byte>): string {
    CharsOf(EncodeGroup(g))
  }

  function EncodeText(x: seq<Byte>): string {
    MapChars(UrlSafe, Grouped(GroupChars, 3, x))
  }

  function UpToPad(s: string): string {
    if s == [] || s[0] == '=' then [] else [s[0]] + UpToPad(s[1..])
  }

  /** The values of the characters in the alphabet; others are skipped. */
  function Readable(s: string): seq<Sextet> {
    if s == [] then []
    else
      var front, k := Readable(s[..|s| - 1]), ValueOf(s[|s| - 1]);
      if k >= 0 then front + [k] else front
  }

  function DecodeText(s: string): seq<Byte> {
    DecodeValues(Readable(UpToPad(MapChars(Standard, s))))
  }

  lemma {:induction false} TextOfValues(x: seq<Byte>)
    ensures Grouped(GroupChars, 3, x) == CharsOf(EncodeValues(x))
  {
    if |x| > 3 {
      TextOfValues(x[3..]);
      assert CharsOf(EncodeGroup(x[..3]) + EncodeValues(x[3..])) == CharsOf(EncodeGroup(x[..3])) + CharsOf(EncodeValues(x[3..]));
    }
  }

  predicate IsUrlSafe(c: char) {
    'A' <= c <= 'Z' || 'a' <= c <= 'z' || '0' <= c <= '9' || c == '-' || c == '_'
  }

  /** Only the 64 URL-safe characters, no padding, ceil(4n/3) of them. */
  lemma EncodedAlphabet(x: seq<Byte>)
    ensures |EncodeText(x)| == (4 * |x| + 2) / 3
    ensures forall c :: c in EncodeText(x) ==> IsUrlSafe(c)
  {
    EncodedLength(x);
    TextOfValues(x);
    var v := EncodeValues(x);
    forall i | 0 <= i < |v| ensures IsUrlSafe(EncodeText(x)[i]) { assert EncodeText(x)[i] == UrlSafe(CharOf(v[i])); }
  }

  lemma {:induction false} NoPadNoCut(s: string)
    requires '=' !in s
    ensures UpToPad(s) == s
  {
    if s != [] {
      NoPadNoCut(s[1..]);
    }
  }

  lemma {:induction false} ReadBack(v: seq<Sextet>)
    ensures Readable(CharsOf(v)) == v
  {
    if v != [] {
      var n := |v| - 1;
      ReadBack(v[..n]);
      assert CharsOf(v)[..n] == CharsOf(v[..n]);
    }
  }

  /** Decoding what was encoded gives back every byte string. */
  lemma RoundTrip(x: seq<Byte>)
    ensures DecodeText(EncodeText(x)) == x
  {
    var v := EncodeValues(x);
    var s := CharsOf(v);
    TextOfValues(x);
    forall i | 0 <= i < |s| ensures Standard(EncodeText(x)[i]) == s[i] && s[i] != '=' {
      assert EncodeText(x)[i] == UrlSafe(CharOf(v[i]));
    }
    assert MapChars(Standard, EncodeText(x)) == s;
    NoPadNoCut(s);
    ReadBack(v);
    ValuesRoundTrip(x);
  }
}
