/** JSON values, keys, and JWS compact serialization (RFC 7515). */
module Jws {
  import opened Wrappers
  import opened Text
  import opened Base64

  // ---- JSON -------------------------------------------------------------------

  datatype Json =
    | Null
    | Bool(b: bool)
    | Num(n: int)
    | Str(s: string)
    | Arr(items: seq<Json>)
    | Obj(fields: map<string, Json>)
  {
    /** `value.get(name)`: absent on anything but an object. */
    function Get(name: string): Option<Json> {
      if Obj? && name in fields then Some(fields[name]) else None
    }

    function GetStr(name: string): Option<string> {
      match Get(name) case Some(Str(s)) => Some(s) case _ => None
    }

    /** `as_i64`: a number outside 64 bits is no integer. */
    function GetInt(name: string): Option<int> {
      match Get(name)
      case Some(Num(n)) => if -0x8000_0000_0000_0000 <= n < 0x8000_0000_0000_0000 then Some(n) else None
      case _ => None
    }
  }

  function OptionalText(name: string, value: Option<string>): map<string, Json> {
    match value case Some(s) => map[name := Str(s)] case None => map[]
  }

  /** An optional text field: absent and `null` both read as nothing, other types fail. */
  function ReadText(j: Json, name: string): Result<Option<string>, ()> {
    match j.Get(name)
    case Some(Str(s)) => Ok(Some(s))
    case None => Ok(None)
    case Some(Null) => Ok(None)
    case _ => Err(())
  }

  // ---- Keys -------------------------------------------------------------------

  datatype Jwk = Jwk(kty: string, crv: Option<string>, x: Option<string>, y: Option<string>, d: Option<string>)

  datatype Algorithm = ES256 | EdDSA
  {
    function Name(): string {
      match this case ES256 => "ES256" case EdDSA => "EdDSA"
    }
  }

  function AlgorithmForJwk(jwk: Jwk): Option<Algorithm> {
    if jwk.kty == "EC" && jwk.crv == Some("P-256") then Some(ES256)
    else if jwk.kty == "OKP" && jwk.crv == Some("Ed25519") then Some(EdDSA)
    else None
  }

  function JwkJson(k: Jwk): Json {
    Obj(OptionalText("crv", k.crv) + OptionalText("x", k.x) + OptionalText("y", k.y)
        + OptionalText("d", k.d) + map["kty" := Str(k.kty)])
  }

  function JwkFromJson(j: Json): Option<Jwk> {
    match (j.GetStr("kty"), ReadText(j, "crv"), ReadText(j, "x"), ReadText(j, "y"), ReadText(j, "d"))
    case (Some(kty), Ok(crv), Ok(x), Ok(y), Ok(d)) => Some(Jwk(kty, crv, x, y, d))
    case _ => None
  }

  /** Only a whole number that fits 64 bits with its sign is an integer. */
  lemma IntegersFit(j: Json, name: string, n: int)
    ensures j.GetInt(name) == Some(n) <==>
            j.Get(name) == Some(Num(n)) && -0x8000_0000_0000_0000 <= n < 0x8000_0000_0000_0000
  {
  }

  /** Fields added under other names do not matter. */
  lemma ReadPast(fields: map<string, Json>, more: map<string, Json>, name: string)
    requires name !in more
    ensures ReadText(Obj(fields + more), name) == ReadText(Obj(fields), name)
  {
  }

  lemma ReadAdded(fields: map<string, Json>, name: string, value: Option<string>)
    requires name !in fields
    ensures ReadText(Obj(fields + OptionalText(name, value)), name) == Ok(value)
  {
  }

  lemma ReadFirst(name: string, value: Option<string>)
    ensures ReadText(Obj(OptionalText(name, value)), name) == Ok(value)
    ensures OptionalText(name, value).Keys <= {name}
  {
  }

  lemma JwkNames()
    ensures "crv" != "x" && "crv" != "y" && "crv" != "d" && "crv" != "kty" && "x" != "y" && "x" != "d" && "x" != "kty"
    ensures "y" != "d" && "y" != "kty" && "d" != "kty"
  {
    assert |"crv"| == 3 && |"kty"| == 3 && "crv"[0] != "kty"[0] && "x"[0] != "y"[0] && "x"[0] != "d"[0]
           && "y"[0] != "d"[0];
  }

  lemma JwkTexts(k: Jwk)
    ensures ReadText(JwkJson(k), "crv") == Ok(k.crv) && ReadText(JwkJson(k), "x") == Ok(k.x)
    ensures ReadText(JwkJson(k), "y") == Ok(k.y) && ReadText(JwkJson(k), "d") == Ok(k.d)
  {
    hide ReadText, OptionalText;
    JwkNames();
    ReadFirst("crv", k.crv); ReadFirst("x", k.x); ReadFirst("y", k.y); ReadFirst("d", k.d);
    var crv, x := OptionalText("crv", k.crv), OptionalText("x", k.x);
    var y, d, kty := OptionalText("y", k.y), OptionalText("d", k.d), map["kty" := Str(k.kty)];
    ReadPast(crv, x, "crv"); ReadPast(crv + x, y, "crv"); ReadPast(crv + x + y, d, "crv");
    ReadPast(crv + x + y + d, kty, "crv");
    ReadAdded(crv, "x", k.x); ReadPast(crv + x, y, "x"); ReadPast(crv + x + y, d, "x");
    ReadPast(crv + x + y + d, kty, "x");
    ReadAdded(crv + x, "y", k.y); ReadPast(crv + x + y, d, "y"); ReadPast(crv + x + y + d, kty, "y");
    ReadAdded(crv + x + y, "d", k.d); ReadPast(crv + x + y + d, kty, "d");
  }

  lemma JwkRoundTrip(k: Jwk)
    ensures JwkFromJson(JwkJson(k)) == Some(k) && JwkJson(k).Obj?
  {
    hide ReadText;
    JwkTexts(k);
  }

  // ---- The libraries underneath --------------------------------------------------

  /** JSON text, SHA-256 and signatures, as the functions the code calls. */
  datatype Library = Library(
    jsonText: Json -> seq<byte>,
    parseJson: seq<byte> -> Option<Json>,
    sha256: string -> seq<byte>,
    sign: (Jwk, string) -> seq<byte>,
    verify: (Jwk, string, seq<byte>) -> bool)

  /** JSON text is never empty and reads back, digests do not collide, and a key accepts its own signatures. */
  ghost predicate Ideal(lib: Library) {
    && (forall j :: lib.jsonText(j) != [] && lib.parseJson(lib.jsonText(j)) == Some(j))
    && (forall a, b :: lib.sha256(a) == lib.sha256(b) ==> a == b)
    && (forall k, m :: AlgorithmForJwk(k).Some? ==> lib.verify(k, m, lib.sign(k, m)))
  }

  /** `base64url(sha256(text))`, the form every digest and hash claim takes. */
  function HashText(lib: Library, text: string): string {
    Encode(UrlUnpadded, lib.sha256(text))
  }

  lemma HashInjective(lib: Library, a: string, b: string)
    requires Ideal(lib) && HashText(lib, a) == HashText(lib, b)
    ensures a == b
  {
    EncodeInjective(UrlUnpadded, lib.sha256(a), lib.sha256(b));
  }

  // ---- Headers ------------------------------------------------------------------

  datatype JwsHeader = JwsHeader(alg: string, typ: Option<string>, kid: Option<string>,
                                 jwk: Option<Jwk>, x5c: Option<seq<string>>)

  function Texts(items: seq<string>): seq<Json> {
    seq(|items|, i requires 0 <= i < |items| => Str(items[i]))
  }

  /** A JSON array of text, if it is one. */
  function ReadTexts(items: seq<Json>): (r: Option<seq<string>>)
    ensures r.Some? <==> forall i :: 0 <= i < |items| ==> items[i].Str?
    ensures r.Some? ==> |r.value| == |items| && forall i :: 0 <= i < |items| ==> items[i] == Str(r.value[i])
  {
    if items == [] then Some([])
    else match (items[0], ReadTexts(items[1..]))
      case (Str(s), Some(rest)) => Some([s] + rest)
      case _ => None
  }

  function HeaderJson(h: JwsHeader): Json {
    Obj(OptionalText("typ", h.typ) + OptionalText("kid", h.kid) + map["alg" := Str(h.alg)]
        + (if h.jwk.Some? then map["jwk" := JwkJson(h.jwk.value)] else map[])
        + (if h.x5c.Some? then map["x5c" := Arr(Texts(h.x5c.value))] else map[]))
  }

  function ReadJwk(j: Json): Result<Option<Jwk>, ()> {
    match j.Get("jwk")
    case None => Ok(None)
    case Some(Null) => Ok(None)
    case Some(k) => (match JwkFromJson(k) case Some(jwk) => Ok(Some(jwk)) case None => Err(()))
  }

  function ReadX5c(j: Json): Result<Option<seq<string>>, ()> {
    match j.Get("x5c")
    case None => Ok(None)
    case Some(Null) => Ok(None)
    case Some(Arr(items)) => (match ReadTexts(items) case Some(t) => Ok(Some(t)) case None => Err(()))
    case _ => Err(())
  }

  function HeaderFromJson(j: Json): Option<JwsHeader> {
    match (j.GetStr("alg"), ReadText(j, "typ"), ReadText(j, "kid"), ReadJwk(j), ReadX5c(j))
    case (Some(alg), Ok(typ), Ok(kid), Ok(jwk), Ok(x5c)) => Some(JwsHeader(alg, typ, kid, jwk, x5c))
    case _ => None
  }

  lemma TextsRoundTrip(items: seq<string>)
    ensures ReadTexts(Texts(items)) == Some(items)
  {
    assert ReadTexts(Texts(items)).value == items;
  }

  lemma HeaderNames()
    ensures "typ" != "kid" && "typ" != "alg" && "typ" != "jwk" && "typ" != "x5c" && "kid" != "alg" && "kid" != "jwk"
    ensures "kid" != "x5c"
    ensures "alg" != "jwk" && "alg" != "x5c" && "jwk" != "x5c"
  {
    assert "typ"[0] == 't' && "kid"[0] == 'k' && "alg"[0] == 'a' && "jwk"[0] == 'j' && "x5c"[0] == 'x';
  }

  lemma HeaderTexts(h: JwsHeader)
    ensures ReadText(HeaderJson(h), "typ") == Ok(h.typ) && ReadText(HeaderJson(h), "kid") == Ok(h.kid)
  {
    hide JwkJson, Texts, ReadText, OptionalText;
    HeaderNames();
    ReadFirst("typ", h.typ); ReadFirst("kid", h.kid);
    var typ, kid, alg := OptionalText("typ", h.typ), OptionalText("kid", h.kid), map["alg" := Str(h.alg)];
    var jwk := if h.jwk.Some? then map["jwk" := JwkJson(h.jwk.value)] else map[];
    var x5c := if h.x5c.Some? then map["x5c" := Arr(Texts(h.x5c.value))] else map[];
    ReadPast(typ, kid, "typ"); ReadPast(typ + kid, alg, "typ"); ReadPast(typ + kid + alg, jwk,
        "typ"); ReadPast(typ + kid + alg + jwk, x5c, "typ");
    ReadAdded(typ, "kid", h.kid); ReadPast(typ + kid, alg, "kid"); ReadPast(typ + kid + alg, jwk,
        "kid"); ReadPast(typ + kid + alg + jwk, x5c, "kid");
  }

  lemma HeaderAlg(h: JwsHeader)
    ensures HeaderJson(h).GetStr("alg") == Some(h.alg)
  {
    hide JwkJson, Texts, OptionalText;
    HeaderNames();
  }

  lemma HeaderJwk(h: JwsHeader)
    ensures ReadJwk(HeaderJson(h)) == Ok(h.jwk)
  {
    hide JwkJson, JwkFromJson, Texts;
    if h.jwk.Some? {
      JwkRoundTrip(h.jwk.value);
    }
  }

  lemma HeaderX5c(h: JwsHeader)
    ensures ReadX5c(HeaderJson(h)) == Ok(h.x5c)
  {
    hide JwkJson, Texts, ReadTexts;
    if h.x5c.Some? {
      TextsRoundTrip(h.x5c.value);
    }
  }

  lemma HeaderRoundTrip(h: JwsHeader)
    ensures HeaderFromJson(HeaderJson(h)) == Some(h)
  {
    hide HeaderJson, ReadText, ReadJwk, ReadX5c;
    HeaderTexts(h);
    HeaderAlg(h);
    HeaderJwk(h);
    HeaderX5c(h);
  }

  lemma NullText(fields: map<string, Json>, name: string, other: string)
    ensures ReadText(Obj(fields[name := Null]), other) == ReadText(Obj(fields - {name}), other)
  {
  }

  lemma OtherMember(fields: map<string, Json>, name: string, other: string)
    requires other != name
    ensures Obj(fields[name := Null]).Get(other) == Obj(fields - {name}).Get(other)
  {
  }

  /** An optional member that is `null` reads as one that is not there, in keys and in headers. */
  lemma NullIsAbsent(fields: map<string, Json>, name: string)
    requires name in {"crv", "x", "y", "d"}
    ensures JwkFromJson(Obj(fields[name := Null])) == JwkFromJson(Obj(fields - {name}))
  {
    hide ReadText, Json.Get;
    JwkNames();
    OtherMember(fields, name, "kty");
    NullText(fields, name, "crv");
    NullText(fields, name, "x");
    NullText(fields, name, "y");
    NullText(fields, name, "d");
  }

  lemma NullHeaderIsAbsent(fields: map<string, Json>, name: string)
    requires name in {"typ", "kid", "jwk", "x5c"}
    ensures HeaderFromJson(Obj(fields[name := Null])) == HeaderFromJson(Obj(fields - {name}))
  {
    hide JwkFromJson, ReadTexts, ReadText;
    HeaderNames();
    OtherMember(fields, name, "alg");
    NullText(fields, name, "typ");
    NullText(fields, name, "kid");
  }

  // ---- Compact serialization ------------------------------------------------------

  datatype JwsError = InvalidFormat | Base64Error | Deserialization | Rejected

  datatype DecodedJws = DecodedJws(header: JwsHeader, payload: seq<byte>, signature: seq<byte>, signingInput: string)

  function SigningInput(lib: Library, header: JwsHeader, payload: Json): string {
    Encode(UrlUnpadded, lib.jsonText(HeaderJson(header))) + "." + Encode(UrlUnpadded, lib.jsonText(payload))
  }

  function SignCompact(lib: Library, key: Jwk, header: JwsHeader, payload: Json): string {
    var input := SigningInput(lib, header, payload);
    input + "." + Encode(UrlUnpadded, lib.sign(key, input))
  }

  /** Split on the first two dots; the rest is the third part. */
  function DecodeCompact(lib: Library, jws: string): Result<DecodedJws, JwsError> {
    match SplitOnce(jws, '.')
    case None => Err(InvalidFormat)
    case Some((first, rest)) =>
      match SplitOnce(rest, '.')
      case None => Err(InvalidFormat)
      case Some((second, third)) =>
        match (Decode(UrlUnpadded, first), Decode(UrlUnpadded, second), Decode(UrlUnpadded, third))
        case (Some(headerBytes), Some(payload), Some(signature)) =>
          (match lib.parseJson(headerBytes)
           case None => Err(Deserialization)
           case Some(j) =>
             match HeaderFromJson(j)
             case None => Err(Deserialization)
             case Some(header) => Ok(DecodedJws(header, payload, signature, first + "." + second)))
        case _ => Err(Base64Error)
  }

  /** A text decodes to a JWS iff it has three base64url parts between dots: a header, the payload and the
      signature, in that order; what was signed is the first two with their dot. */
  lemma DecodesIff(lib: Library, jws: string, d: DecodedJws)
    ensures DecodeCompact(lib, jws) == Ok(d) <==>
            exists first, second, third :: Compacted(lib, jws, d, first, second, third)
  {
    hide Decode, HeaderFromJson;
    if first, second, third :| Compacted(lib, jws, d, first, second, third) {
      var rest := second + ['.'] + third;
      assert jws == first + ['.'] + rest;
      SplitOnceAt(first, '.', rest);
      SplitOnceAt(second, '.', third);
    }
    if DecodeCompact(lib, jws) == Ok(d) {
      var (first, rest) := SplitOnce(jws, '.').value;
      var (second, third) := SplitOnce(rest, '.').value;
      assert first + ['.'] + rest == first + "." + second + "." + third;
      assert Compacted(lib, jws, d, first, second, third);
    }
  }

  ghost predicate Compacted(lib: Library, jws: string, d: DecodedJws, first: string, second: string, third: string) {
    && jws == first + "." + second + "." + third && '.' !in first && '.' !in second
    && Decode(UrlUnpadded, first).Some? && lib.parseJson(Decode(UrlUnpadded, first).value).Some?
    && HeaderFromJson(lib.parseJson(Decode(UrlUnpadded, first).value).value) == Some(d.header)
    && Decode(UrlUnpadded, second) == Some(d.payload) && Decode(UrlUnpadded, third) == Some(d.signature)
    && d.signingInput == first + "." + second
  }

  function VerifyCompact(lib: Library, jws: string, key: Jwk): Result<DecodedJws, JwsError> {
    var decoded :- DecodeCompact(lib, jws);
    if lib.verify(key, decoded.signingInput, decoded.signature) then Ok(decoded) else Err(Rejected)
  }

  function VerifyWithPublicJwk(lib: Library, jws: string, jwk: Jwk): Result<DecodedJws, JwsError> {
    var decoded :- DecodeCompact(lib, jws);
    match AlgorithmForJwk(jwk)
    case None => Err(Rejected)
    case Some(expected) =>
      if decoded.header.alg != expected.Name() then Err(Rejected)
      else if lib.verify(jwk, decoded.signingInput, decoded.signature) then Ok(decoded)
      else Err(Rejected)
  }

  /** The key made the signature, and the header names the key's own algorithm. */
  predicate SignedUnder(lib: Library, jws: string, key: Jwk) {
    match DecodeCompact(lib, jws)
    case Err(_) => false
    case Ok(decoded) =>
      && AlgorithmForJwk(key).Some? && decoded.header.alg == AlgorithmForJwk(key).value.Name()
      && lib.verify(key, decoded.signingInput, decoded.signature)
  }

  /** Verifying under a public JWK accepts exactly that, and gives what the text decodes to. */
  lemma VerifiedIff(lib: Library, jws: string, key: Jwk)
    ensures VerifyWithPublicJwk(lib, jws, key).Ok? <==> SignedUnder(lib, jws, key)
    ensures VerifyWithPublicJwk(lib, jws, key).Ok? ==> VerifyWithPublicJwk(lib, jws, key) == DecodeCompact(lib, jws)
  {
    hide DecodeCompact;
  }

  /** A base64url segment has neither of the two separators. */
  lemma SegmentFree(b: seq<byte>)
    ensures Free(Encode(UrlUnpadded, b), '.') && Free(Encode(UrlUnpadded, b), '~')
  {
  }

  /** Decoding what was signed gives back the header, the payload text, the signature
      and the very string that was signed; it has two dots, so it is classified as a JWT. */
  lemma DecodeSigned(lib: Library, key: Jwk, header: JwsHeader, payload: Json)
    requires Ideal(lib)
    ensures var jws := SignCompact(lib, key, header, payload);
            var input := SigningInput(lib, header, payload);
            && DecodeCompact(lib, jws) == Ok(DecodedJws(header, lib.jsonText(payload), lib.sign(key, input), input))
            && Count(jws, '.') == 2 && Free(jws, '~') && jws != ""
  {
    hide HeaderJson, HeaderFromJson, Decode, Encode, Count;
    var headerText, payloadText := lib.jsonText(HeaderJson(header)), lib.jsonText(payload);
    var input := SigningInput(lib, header, payload);
    var a, b := Encode(UrlUnpadded, headerText), Encode(UrlUnpadded, payloadText);
    var c := Encode(UrlUnpadded, lib.sign(key, input));
    var jws := SignCompact(lib, key, header, payload);
    SegmentFree(headerText); SegmentFree(payloadText); SegmentFree(lib.sign(key, input));
    assert jws == a + ['.'] + (b + ['.'] + c);
    SplitOnceAt(a, '.', b + ['.'] + c);
    SplitOnceAt(b, '.', c);
    DecodeEncode(UrlUnpadded, headerText);
    DecodeEncode(UrlUnpadded, payloadText);
    DecodeEncode(UrlUnpadded, lib.sign(key, input));
    HeaderRoundTrip(header);
    TwoDots(a, b, c);
  }

  lemma TwoDots(a: string, b: string, c: string)
    requires Free(a, '.') && Free(b, '.') && Free(c, '.')
    ensures Count(a + "." + b + "." + c, '.') == 2
  {
    CountFree(a, '.'); CountFree(b, '.'); CountFree(c, '.');
    CountAppend(a, ".", '.');
    CountAppend(a + ".", b, '.');
    CountAppend(a + "." + b, ".", '.');
    CountAppend(a + "." + b + ".", c, '.');
  }

  /** A signed JWS verifies under its signer's JWK iff the header names that key's own algorithm. */
  lemma SignedVerifiesIff(lib: Library, key: Jwk, header: JwsHeader, payload: Json)
    requires Ideal(lib)
    ensures VerifyWithPublicJwk(lib, SignCompact(lib, key, header, payload), key).Ok?
       <==> AlgorithmForJwk(key).Some? && header.alg == AlgorithmForJwk(key).value.Name()
  {
    hide SignCompact, DecodeCompact, Count;
    DecodeSigned(lib, key, header, payload);
  }
}
