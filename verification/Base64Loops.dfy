/** The loops of base64UrlEncode and base64UrlDecode in src/common/JWT.h, proved against module Base64Url. */
module Base64Loops {
  import opened Bytes
  import opened Groups
  import opened Base64Url
  import opened Base64Bits

  // ----- the encoding loop -----

  method CharFor(i: Sextet) returns (c: char)
    ensures c == CharOf(i)
  {
    CharAt(i);
    c := CHARS[i];
  }

  /** The characters for the first i bytes of the buffer, padded with zero bytes. */
  method EmitChars(result: string, arr3: array<Byte>, arr4: array<Sextet>, i: nat) returns (result': string)
    requires arr3.Length == 3 && arr4.Length == 4 && 1 <= i <= 3
    modifies arr3, arr4
    ensures result' == result + GroupChars(old(arr3[..i]))
  {
    ghost var g := arr3[..i];
    for j := i to 3
      invariant forall l :: 0 <= l < i ==> arr3[l] == g[l]
      invariant forall l :: i <= l < j ==> arr3[l] == 0
    {
      arr3[j] := 0;
    }
    arr4[0] := arr3[0] / 4;
    arr4[1] := arr3[0] % 4 * 16 + arr3[1] / 16;
    arr4[2] := arr3[1] % 16 * 4 + arr3[2] / 64;
    if i == 3 {
      arr4[3] := arr3[2] % 64;
    }
    ghost var t := arr4[..i + 1];
    assert t == EncodeGroup(g);
    result' := result;
    for j := 0 to i + 1
      invariant arr4[..i + 1] == t && result' == result + CharsOf(t[..j])
    {
      var c := CharFor(arr4[j]);
      result' := result' + [c];
      assert t[j] == arr4[j] && t[..j + 1] == t[..j] + [t[j]];
    }
    assert t[..i + 1] == t;
  }

  method PushByte(ghost x: seq<Byte>, b: Byte, arr3: array<Byte>, arr4: array<Sextet>, i: nat, result: string)
    returns (i': nat, result': string)
    requires arr3.Length == 3 && arr4.Length == 4 && Buffered(GroupChars, 3, x, arr3[..], i, result)
    modifies arr3, arr4
    ensures Buffered(GroupChars, 3, x + [b], arr3[..], i', result')
  {
    ghost var buffer := arr3[..];
    arr3[i] := b;
    assert arr3[..] == buffer[i := b];
    i', result' := i + 1, result;
    if i' == 3 {
      ghost var g := arr3[..3];
      assert g == buffer[i := b];
      result' := EmitChars(result, arr3, arr4, 3);
      assert result' == result + GroupChars(g);
      BufferFlushes(GroupChars, 3, x, buffer, i, result, b, arr3[..]);
      i' := 0;
    } else {
      BufferGrows(GroupChars, 3, x, buffer, i, result, b);
    }
  }

  /** The one or two bytes left in the buffer at the end. */
  method FlushBytes(ghost x: seq<Byte>, arr3: array<Byte>, arr4: array<Sextet>, i: nat, result: string) returns (result': string)
    requires arr3.Length == 3 && arr4.Length == 4 && Buffered(GroupChars, 3, x, arr3[..], i, result)
    modifies arr3, arr4
    ensures result' == Grouped(GroupChars, 3, x)
  {
    result' := result;
    BufferEnds(GroupChars, 3, x, arr3[..], i, result);
    if i != 0 {
      assert arr3[..i] == arr3[..][..i];
      result' := EmitChars(result, arr3, arr4, i);
    }
  }

  /** base64UrlEncode. */
  method Encode(input: seq<Byte>) returns (result: string)
    ensures result == EncodeText(input) && |result| == (4 * |input| + 2) / 3
    ensures forall i :: 0 <= i < |result| ==> 0 <= SextetAt(input, i) < |TABLE| && result[i] == TABLE[SextetAt(input, i)]
  {
    result := "";
    var i: nat := 0;
    var arr3, arr4 := new Byte[3](_ => 0), new Sextet[4](_ => 0);
    for k := 0 to |input|
      invariant Buffered(GroupChars, 3, input[..k], arr3[..], i, result)
    {
      i, result := PushByte(input[..k], input[k], arr3, arr4, i, result);
      assert input[..k + 1] == input[..k] + [input[k]];
    }
    assert input[..|input|] == input;
    result := FlushBytes(input, arr3, arr4, i, result);
    result := Translate(result);
    EncodedAlphabet(input);
    forall i | 0 <= i < |result| ensures 0 <= SextetAt(input, i) < |TABLE| && result[i] == TABLE[SextetAt(input, i)] {
      EncodedChar(input, i);
    }
  }

  method Translate(s: string) returns (t: string)
    ensures t == MapChars(UrlSafe, s)
    ensures |t| == |s| && forall i :: 0 <= i < |s| ==> t[i] == if s[i] == '+' then '-' else if s[i] == '/' then '_' else s[i]
  {
    t := s;
    for k := 0 to |s|
      invariant |t| == |s|
      invariant forall j :: 0 <= j < |s| ==> t[j] == if j < k then UrlSafe(s[j]) else s[j]
    {
      if t[k] == '+' {
        t := t[k := '-'];
      } else if t[k] == '/' {
        t := t[k := '_'];
      }
    }
  }

  // ----- the decoding loop -----

  /** The buffer from position i on becomes zero. */
  method ZeroFill(arr4: array<Sextet>, i: nat)
    requires arr4.Length == 4 && i <= 4
    modifies arr4
    ensures forall l :: 0 <= l < i ==> arr4[l] == old(arr4[l])
    ensures forall l :: i <= l < 4 ==> arr4[l] == 0
  {
    for j := i to 4
      invariant forall l :: 0 <= l < i ==> arr4[l] == old(arr4[l])
      invariant forall l :: i <= l < j ==> arr4[l] == 0
    {
      arr4[j] := 0;
    }
  }

  lemma OctetsFit(w: Sextet, x: Sextet, y: Sextet, z: Sextet)
    ensures 0 <= w * 4 + x / 16 < 256 && 0 <= x % 16 * 16 + y / 4 < 256 && 0 <= y % 4 * 64 + z < 256
  {
  }

  lemma PaddedGroup(t: seq<Sextet>, w: Sextet, x: Sextet, y: Sextet, z: Sextet)
    requires 1 <= |t| <= 4 && t[0] == w && x == (if |t| > 1 then t[1] else 0)
    requires y == (if |t| > 2 then t[2] else 0) && z == (if |t| > 3 then t[3] else 0)
    ensures DecodeGroup(t) == Octets(w, x, y, z)[..|t| - 1]
  {
  }

  /** Zero-pads the buffer and recombines it. */
  method Recombine(arr4: array<Sextet>, arr3: array<Byte>, i: nat)
    requires arr4.Length == 4 && arr3.Length == 3 && 1 <= i <= 4
    modifies arr4, arr3
    ensures arr3[..i - 1] == DecodeGroup(old(arr4[..i]))
  {
    ghost var t := arr4[..i];
    ZeroFill(arr4, i);
    var w: int, x: int, y: int, z: int := arr4[0], arr4[1], arr4[2], arr4[3];
    PaddedGroup(t, w, x, y, z);
    OctetsFit(w, x, y, z);
    arr3[0] := w * 4 + x / 16;
    arr3[1] := x % 16 * 16 + y / 4;
    if i == 4 {
      arr3[2] := y % 4 * 64 + z;
    }
    ghost var o := Octets(w, x, y, z);
    assert arr3[0] == o[0] && arr3[1] == o[1] && (i == 4 ==> arr3[2] == o[2]);
  }

  /** The bytes of the first i sextets in the buffer. */
  method EmitOctets(result: seq<Byte>, arr4: array<Sextet>, arr3: array<Byte>, i: nat) returns (result': seq<Byte>)
    requires arr4.Length == 4 && arr3.Length == 3 && 1 <= i <= 4
    modifies arr4, arr3
    ensures result' == result + DecodeGroup(old(arr4[..i]))
  {
    Recombine(arr4, arr3, i);
    result' := result;
    for j := 0 to i - 1
      invariant result' == result + arr3[..j]
    {
      result' := result' + [arr3[j]];
      assert arr3[..j + 1] == arr3[..j] + [arr3[j]];
    }
  }

  method PushSextet(ghost v: seq<Sextet>, x: Sextet, arr4: array<Sextet>, arr3: array<Byte>, i: nat, result: seq<Byte>)
    returns (i': nat, result': seq<Byte>)
    requires arr4.Length == 4 && arr3.Length == 3 && Buffered(DecodeGroup, 4, v, arr4[..], i, result)
    modifies arr4, arr3
    ensures Buffered(DecodeGroup, 4, v + [x], arr4[..], i', result')
  {
    ghost var buffer := arr4[..];
    arr4[i] := x;
    assert arr4[..] == buffer[i := x];
    i', result' := i + 1, result;
    if i' == 4 {
      ghost var t := arr4[..4];
      assert t == buffer[i := x];
      result' := EmitOctets(result, arr4, arr3, 4);
      assert result' == result + DecodeGroup(t);
      BufferFlushes(DecodeGroup, 4, v, buffer, i, result, x, arr4[..]);
      i' := 0;
    } else {
      BufferGrows(DecodeGroup, 4, v, buffer, i, result, x);
    }
  }

  lemma ReadableSnoc(s: string, c: char)
    ensures Readable(s + [c]) == if Find(CHARS, c) >= 0 then Readable(s) + [ValueOf(c)] else Readable(s)
    ensures Find(CHARS, c) == ValueOf(c)
  {
    assert (s + [c])[..|s|] == s;
    FindIsValueOf(c);
  }

  /** One character of the input: outside the alphabet it is skipped. */
  method PushChar(ghost s: string, c: char, arr4: array<Sextet>, arr3: array<Byte>, i: nat, result: seq<Byte>)
    returns (i': nat, result': seq<Byte>)
    requires arr4.Length == 4 && arr3.Length == 3 && Buffered(DecodeGroup, 4, Readable(s), arr4[..], i, result)
    modifies arr4, arr3
    ensures Buffered(DecodeGroup, 4, Readable(s + [c]), arr4[..], i', result')
  {
    i', result' := i, result;
    var pos := Find(CHARS, c);
    ReadableSnoc(s, c);
    if pos >= 0 {
      i', result' := PushSextet(Readable(s), pos, arr4, arr3, i, result);
    }
  }

  lemma {:induction false} PadChangesNothing(s: string)
    ensures UpToPad(s + "=") == UpToPad(s)
  {
    if s != [] {
      assert (s + "=")[1..] == s[1..] + "=";
      PadChangesNothing(s[1..]);
    }
  }

  method Pad(s: string) returns (t: string)
    ensures UpToPad(t) == UpToPad(s) && |t| % 4 == 0
  {
    t := s;
    while |t| % 4 != 0
      invariant UpToPad(t) == UpToPad(s)
      decreases (4 - |t| % 4) % 4
    {
      PadChangesNothing(t);
      t := t + "=";
    }
  }

  lemma {:induction false} CutHere(s: string, k: nat)
    requires k <= |s| && '=' !in s[..k] && (k < |s| ==> s[k] == '=')
    ensures UpToPad(s) == s[..k]
  {
    if k > 0 {
      assert s[..k][0] == s[0] && s[..k][1..] == s[1..][..k - 1];
      CutHere(s[1..], k - 1);
      assert s[..k] == [s[0]] + s[1..][..k - 1];
    }
  }

  /** The main loop: stops at the first padding character. */
  method ReadAll(s: string, arr4: array<Sextet>, arr3: array<Byte>) returns (i: nat, result: seq<Byte>)
    requires arr4.Length == 4 && arr3.Length == 3
    modifies arr4, arr3
    ensures Buffered(DecodeGroup, 4, Readable(UpToPad(s)), arr4[..], i, result)
  {
    result, i := [], 0;
    var k := 0;
    while k < |s| && s[k] != '='
      invariant k <= |s| && '=' !in s[..k]
      invariant Buffered(DecodeGroup, 4, Readable(s[..k]), arr4[..], i, result)
    {
      i, result := PushChar(s[..k], s[k], arr4, arr3, i, result);
      assert s[..k + 1] == s[..k] + [s[k]];
      k := k + 1;
    }
    CutHere(s, k);
  }

  /** base64UrlDecode. */
  method Decode(input: string) returns (result: seq<Byte>)
    ensures result == DecodeText(input)
  {
    var s := Pad(MapChars(Standard, input));
    var arr4, arr3 := new Sextet[4](_ => 0), new Byte[3](_ => 0);
    var i, r := ReadAll(s, arr4, arr3);
    result := r;
    BufferEnds(DecodeGroup, 4, Readable(UpToPad(s)), arr4[..], i, result);
    if i != 0 {
      assert arr4[..i] == arr4[..][..i];
      result := EmitOctets(result, arr4, arr3, i);
    }
  }
}
