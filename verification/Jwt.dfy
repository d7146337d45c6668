/** Signed tokens as in src/common/JWT.h: compact serialization, section 7.1 of RFC 7515. JSON text and HMAC are parameters. */
module Jwt {
  import opened Options
  import opened Base64Url
  import opened Base64Loops
  import opened Bytes

  datatype JsonValue = JInt(n: int) | JString(s: string) | JOther
  datatype Json = JObject(fields: map<string, JsonValue>) | JNonObject

  /** toInt is the conversion behind value(key, int64_t{0}): what it makes of fractions or truth values is its own affair. */
  datatype Library = Library(
    dump: Json -> seq<Byte>,
    parse: seq<Byte> -> Option<Json>,
    toInt: JsonValue -> Option<int>,
    hmac: (seq<Byte>, string) -> seq<Byte>)

  /** Parsing undoes dumping a payload, and integers are read as they are. */
  ghost predicate Faithful(lib: Library) {
    && (forall c :: lib.parse(lib.dump(PayloadOf(c))) == Some(PayloadOf(c)))
    && (forall n :: lib.toInt(JInt(n)) == Some(n))
  }

  datatype Claims = Claims(userId: int, jti: string, iat: int, exp: int)

  const NO_CLAIMS := Claims(0, "", 0, 0)

  // ----- generation -----

  const HEADER := JObject(map["alg" := JString("HS256"), "typ" := JString("JWT")])

  function PayloadOf(c: Claims): Json {
    var fields := map["userId" := JInt(c.userId), "iat" := JInt(c.iat), "exp" := JInt(c.exp)];
    JObject(if c.jti != "" then fields["jti" := JString(c.jti)] else fields)
  }

  function MessageOf(lib: Library, c: Claims): string {
    EncodeText(lib.dump(HEADER)) + "." + EncodeText(lib.dump(PayloadOf(c)))
  }

  function Signature(lib: Library, secret: seq<Byte>, message: string): string {
    EncodeText(lib.hmac(secret, message))
  }

  function TokenOf(lib: Library, secret: seq<Byte>, c: Claims): string {
    MessageOf(lib, c) + "." + Signature(lib, secret, MessageOf(lib, c))
  }

  // ----- verification -----

  /** token.find('.', from), -1 for npos. */
  function FindDot(s: string, from: nat): (k: int)
    ensures k == -1 || from <= k < |s|
    ensures k >= 0 ==> s[k] == '.' && forall i :: from <= i < k ==> s[i] != '.'
    ensures k == -1 ==> forall i :: from <= i < |s| ==> s[i] != '.'
    decreases |s| - from
  {
    if from >= |s| then -1 else if s[from] == '.' then from else FindDot(s, from + 1)
  }

  /** payload.value(key, 0) and payload.value(key, ""): None stands for the exception on a type that is not converted. */
  function IntField(lib: Library, fields: map<string, JsonValue>, key: string): Option<int> {
    if key !in fields then Some(0) else lib.toInt(fields[key])
  }

  function StringField(fields: map<string, JsonValue>, key: string): Option<string> {
    if key !in fields then Some("") else if fields[key].JString? then Some(fields[key].s) else None
  }

  function ClaimsIn(lib: Library, payload: seq<Byte>): Option<Claims> {
    match lib.parse(payload)
    case Some(JObject(f)) =>
      var u, e, i, j := IntField(lib, f, "userId"), IntField(lib, f, "exp"), IntField(lib, f, "iat"), StringField(f, "jti");
      if u.Some? && e.Some? && i.Some? && j.Some? then Some(Claims(u.value, j.value, i.value, e.value)) else None
    case _ => None
  }

  predicate Current(c: Claims, now: int) {
    c.exp != 0 && now <= c.exp && c.userId > 0
  }

  /** The token is three dot-separated parts, the third is the signature of the first two, and the second carries
      current claims. */
  ghost predicate Accepted(lib: Library, secret: seq<Byte>, token: string, now: int, c: Claims) {
    exists h, p, s :: Parts(token, h, p, s) && Signed(lib, secret, h, p, s, now, c)
  }

  ghost predicate Signed(lib: Library, secret: seq<Byte>, h: string, p: string, s: string, now: int, c: Claims) {
    s == Signature(lib, secret, h + "." + p) && ClaimsIn(lib, DecodeText(p)) == Some(c) && Current(c, now)
  }

  ghost predicate Parts(token: string, h: string, p: string, s: string) {
    token == h + "." + p + "." + s && '.' !in h && '.' !in p
  }

  lemma PartsAreUnique(token: string, h: string, p: string, s: string)
    requires Parts(token, h, p, s)
    ensures FindDot(token, 0) == |h| && FindDot(token, |h| + 1) == |h| + 1 + |p|
    ensures token[..|h|] == h && token[|h| + 1..|h| + 1 + |p|] == p && token[|h| + 2 + |p|..] == s
    ensures token[..|h| + 1 + |p|] == h + "." + p
  {
    assert forall i :: 0 <= i < |h| ==> token[i] == h[i];
    assert token[|h|] == '.';
    assert forall i :: 0 <= i < |p| ==> token[|h| + 1 + i] == p[i];
    assert token[|h| + 1 + |p|] == '.';
  }

  /** Cutting at the first two dots gives the parts. */
  lemma PartsAtDots(token: string, d1: nat, d2: nat)
    requires FindDot(token, 0) == d1 && FindDot(token, d1 + 1) == d2
    ensures Parts(token, token[..d1], token[d1 + 1..d2], token[d2 + 1..])
    ensures token[..d2] == token[..d1] + "." + token[d1 + 1..d2]
  {
    Recompose(token, d1, d2);
  }

  lemma Recompose(token: string, d1: nat, d2: nat)
    requires d1 < d2 < |token| && token[d1] == '.' && token[d2] == '.'
    ensures token[..d2] == token[..d1] + "." + token[d1 + 1..d2]
    ensures token == token[..d1] + "." + token[d1 + 1..d2] + "." + token[d2 + 1..]
  {
    assert token == token[..d2] + "." + token[d2 + 1..];
  }

  lemma AcceptedHasDots(lib: Library, secret: seq<Byte>, token: string, now: int, c: Claims)
    requires Accepted(lib, secret, token, now, c)
    ensures var d1 := FindDot(token, 0);
            && d1 != -1
            && var d2 := FindDot(token, d1 + 1);
               d2 != -1 && Signed(lib, secret, token[..d1], token[d1 + 1..d2], token[d2 + 1..], now, c)
  {
    var h, p, s :| Parts(token, h, p, s) && Signed(lib, secret, h, p, s, now, c);
    PartsAreCuts(token, h, p, s);
  }

  lemma PartsAreCuts(token: string, h: string, p: string, s: string)
    requires Parts(token, h, p, s)
    ensures var d1 := FindDot(token, 0);
            && d1 != -1
            && var d2 := FindDot(token, d1 + 1);
               d2 != -1 && h == token[..d1] && p == token[d1 + 1..d2] && s == token[d2 + 1..]
  {
    PartsAreUnique(token, h, p, s);
  }

  /** The payload carries claims of a positive user that have not expired. */
  ghost predicate Worth(lib: Library, payload: string, now: int) {
    match ClaimsIn(lib, DecodeText(payload))
    case None => false
    case Some(c) => c.userId > 0 && c.exp != 0 && now <= c.exp
  }

  /** A token in three parts is accepted, with the claims in its second part, exactly if its third part is the encoded code
      of the first two with the dot between them, and the claims are worth something; any other token never is. */
  lemma AcceptedIff(lib: Library, secret: seq<Byte>, token: string, now: int, c: Claims, h: string, p: string, s: string)
    ensures Parts(token, h, p, s) ==>
              (Accepted(lib, secret, token, now, c) <==>
                 s == EncodeText(lib.hmac(secret, h + "." + p)) && ClaimsIn(lib, DecodeText(p)) == Some(c) && Worth(lib, p, now))
    ensures Accepted(lib, secret, token, now, c) ==> exists h', p', s' :: Parts(token, h', p', s')
  {
    if Parts(token, h, p, s) && Accepted(lib, secret, token, now, c) {
      AcceptedHasDots(lib, secret, token, now, c);
      PartsAreCuts(token, h, p, s);
    }
    if Parts(token, h, p, s) && Signed(lib, secret, h, p, s, now, c) {
      assert Accepted(lib, secret, token, now, c);
    }
  }

  /** What is read from a payload: the four fields by their names, 0 or the empty text for one that is missing, nothing at
      all if one cannot be converted or the payload is no object. */
  lemma ClaimsAreFields(lib: Library, payload: seq<Byte>)
    ensures ClaimsIn(lib, payload).Some? <==>
              && lib.parse(payload).Some? && lib.parse(payload).value.JObject?
              && var f := lib.parse(payload).value.fields;
                 && (forall key :: key in {"userId", "exp", "iat"} && key in f ==> lib.toInt(f[key]).Some?)
                 && ("jti" in f ==> f["jti"].JString?)
    ensures match ClaimsIn(lib, payload)
            case None => true
            case Some(c) =>
              var f := lib.parse(payload).value.fields;
              && (if "userId" in f then lib.toInt(f["userId"]) == Some(c.userId) else c.userId == 0)
              && (if "exp" in f then lib.toInt(f["exp"]) == Some(c.exp) else c.exp == 0)
              && (if "iat" in f then lib.toInt(f["iat"]) == Some(c.iat) else c.iat == 0)
              && (if "jti" in f then f["jti"] == JString(c.jti) else c.jti == "")
  {
    var named := {"userId", "exp", "iat"};
    assert "userId" in named && "exp" in named && "iat" in named;
  }

  class JWT {
    const secret: seq<Byte>
    const lib: Library

    constructor (secret: seq<Byte>, lib: Library)
      ensures this.secret == secret && this.lib == lib
    {
      this.secret, this.lib := secret, lib;
    }

    method GenerateWithJti(userId: int, jti: string, expireSeconds: int, now: int) returns (token: string)
      ensures token == TokenOf(lib, secret, Claims(userId, jti, now, now + expireSeconds))
      ensures var fields := map["userId" := JInt(userId), "iat" := JInt(now), "exp" := JInt(now + expireSeconds)];
              var message := EncodeText(lib.dump(JObject(map["alg" := JString("HS256"), "typ" := JString("JWT")]))) + "."
                           + EncodeText(lib.dump(JObject(if jti == "" then fields else fields["jti" := JString(jti)])));
              token == message + "." + EncodeText(lib.hmac(secret, message))
    {
      var fields := map["userId" := JInt(userId), "iat" := JInt(now), "exp" := JInt(now + expireSeconds)];
      if jti != "" {
        fields := fields["jti" := JString(jti)];
      }
      var headerB64 := Encode(lib.dump(HEADER));
      var payloadB64 := Encode(lib.dump(JObject(fields)));
      var message := headerB64 + "." + payloadB64;
      var signature := Encode(lib.hmac(secret, message));
      token := message + "." + signature;
    }

    /** verifyAndParse accepts exactly the accepted tokens, and then returns their claims. */
    method VerifyAndParse(token: string, now: int) returns (ok: bool, claims: Claims)
      ensures ok ==> Accepted(lib, secret, token, now, claims)
      ensures !ok ==> forall c :: !Accepted(lib, secret, token, now, c)
    {
      ok, claims := false, NO_CLAIMS;
      forall c | Accepted(lib, secret, token, now, c)
        ensures var d1 := FindDot(token, 0);
                && d1 != -1
                && var d2 := FindDot(token, d1 + 1);
                   d2 != -1 && Signed(lib, secret, token[..d1], token[d1 + 1..d2], token[d2 + 1..], now, c)
      {
        AcceptedHasDots(lib, secret, token, now, c);
      }
      var dot1 := FindDot(token, 0);
      if dot1 == -1 { return; }
      var dot2 := FindDot(token, dot1 + 1);
      if dot2 == -1 { return; }
      PartsAtDots(token, dot1, dot2);
      var message, signature := token[..dot2], token[dot2 + 1..];
      var expected := Encode(lib.hmac(secret, message));
      if signature != expected { return; }
      var payload := Decode(token[dot1 + 1..dot2]);
      var found := ClaimsIn(lib, payload);
      if found.None? { return; }
      claims := found.value;
      ok := Current(claims, now);
    }
  }

  // ----- what a generated token is worth -----

  function Dots(s: string): nat {
    if s == [] then 0 else Dots(s[..|s| - 1]) + if s[|s| - 1] == '.' then 1 else 0
  }

  lemma {:induction false} DotsConcat(a: string, b: string)
    ensures Dots(a + b) == Dots(a) + Dots(b)
  {
    if b == [] {
      assert a + b == a;
    } else {
      assert (a + b)[..|a + b| - 1] == a + b[..|b| - 1];
      DotsConcat(a, b[..|b| - 1]);
    }
  }

  lemma {:induction false} NoDots(s: string)
    requires '.' !in s
    ensures Dots(s) == 0
  {
    if s != [] {
      NoDots(s[..|s| - 1]);
    }
  }

  lemma EncodedHasNoDot(x: seq<Byte>)
    ensures '.' !in EncodeText(x)
  {
    EncodedAlphabet(x);
  }

  lemma TokenParts(lib: Library, secret: seq<Byte>, c: Claims)
    ensures Parts(TokenOf(lib, secret, c), EncodeText(lib.dump(HEADER)), EncodeText(lib.dump(PayloadOf(c))),
                  Signature(lib, secret, MessageOf(lib, c)))
  {
    EncodedHasNoDot(lib.dump(HEADER));
    EncodedHasNoDot(lib.dump(PayloadOf(c)));
  }

  lemma TokenHasTwoDots(lib: Library, secret: seq<Byte>, c: Claims)
    ensures Dots(TokenOf(lib, secret, c)) == 2
  {
    var h, p, s := EncodeText(lib.dump(HEADER)), EncodeText(lib.dump(PayloadOf(c))), Signature(lib, secret, MessageOf(lib, c));
    EncodedHasNoDot(lib.dump(HEADER));
    EncodedHasNoDot(lib.dump(PayloadOf(c)));
    EncodedHasNoDot(lib.hmac(secret, MessageOf(lib, c)));
    NoDots(h);
    NoDots(p);
    NoDots(s);
    assert Dots("") == 0 && "."[..0] == "" && Dots(".") == 1;
    DotsConcat(h, ".");
    DotsConcat(h + ".", p);
    DotsConcat(h + "." + p, ".");
    DotsConcat(h + "." + p + ".", s);
  }

  lemma ClaimsSurvive(lib: Library, c: Claims)
    requires Faithful(lib)
    ensures ClaimsIn(lib, DecodeText(EncodeText(lib.dump(PayloadOf(c))))) == Some(c)
  {
    RoundTrip(lib.dump(PayloadOf(c)));
  }

  /** A generated token is accepted under the same secret exactly if it names a positive user, and until its expiry, with
      exactly the original claims. */
  lemma GeneratedTokenAccepted(lib: Library, secret: seq<Byte>, c: Claims, now: int, c': Claims)
    requires Faithful(lib)
    ensures Accepted(lib, secret, TokenOf(lib, secret, c), now, c') <==> c' == c && c.userId > 0 && c.exp != 0 && now <= c.exp
  {
    OtherSecret(lib, secret, secret, c, now, c');
  }

  /** Under another secret it is accepted exactly if both secrets give the same code for its message. */
  lemma OtherSecret(lib: Library, secret: seq<Byte>, secret': seq<Byte>, c: Claims, now: int, c': Claims)
    requires Faithful(lib)
    ensures Accepted(lib, secret', TokenOf(lib, secret, c), now, c') <==>
            c' == c && c.userId > 0 && c.exp != 0 && now <= c.exp && lib.hmac(secret, MessageOf(lib, c)) == lib.hmac(secret', MessageOf(lib, c))
  {
    var token := TokenOf(lib, secret, c);
    var h, p, s := EncodeText(lib.dump(HEADER)), EncodeText(lib.dump(PayloadOf(c))), Signature(lib, secret, MessageOf(lib, c));
    TokenParts(lib, secret, c);
    PartsAreUnique(token, h, p, s);
    ClaimsSurvive(lib, c);
    RoundTrip(lib.hmac(secret, MessageOf(lib, c)));
    RoundTrip(lib.hmac(secret', MessageOf(lib, c)));
    if Accepted(lib, secret', token, now, c') {
      var h', p', s' :| Parts(token, h', p', s') && Signed(lib, secret', h', p', s', now, c');
      PartsAreUnique(token, h', p', s');
      assert h' == h && p' == p && s' == s;
    }
  }
}
