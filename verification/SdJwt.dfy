/** SD-JWT VC issuance, verification and key binding (RFC 9901). */
module SdJwt {
  import opened Wrappers
  import opened Text
  import opened Base64
  import opened Jws
  import opened Credentials

  datatype KeyBindingProblem =
    | Missing | MalformedJwt | UnsupportedKey | WrongAlg | WrongTyp | BadSignature
    | NonceMismatch | NonceMissing | AudienceMismatch | AudienceMissing
    | MalformedPresentation | HashMismatch | HashMissing

  datatype SdJwtError =
    | InvalidDisclosure
    | Verification
    | KeyBinding(problem: KeyBindingProblem)

  // ---- Disclosures --------------------------------------------------------------

  datatype Disclosure = Disclosure(salt: string, claimName: string, claimValue: Json, encoded: string, hash: string)

  function Encoded(lib: Library, salt: string, name: string, value: Json): string {
    Encode(UrlUnpadded, lib.jsonText(Arr([Str(salt), Str(name), value])))
  }

  function NewDisclosure(lib: Library, name: string, value: Json, saltBytes: seq<byte>): Disclosure {
    var salt := Encode(UrlUnpadded, saltBytes);
    var encoded := Encoded(lib, salt, name, value);
    Disclosure(salt, name, value, encoded, HashText(lib, encoded))
  }

  function FromEncoded(lib: Library, encoded: string): Result<Disclosure, SdJwtError> {
    match Decode(UrlUnpadded, encoded)
    case None => Err(InvalidDisclosure)
    case Some(bytes) =>
      match lib.parseJson(bytes)
      case Some(Arr(items)) =>
        if |items| == 3 && items[0].Str? && items[1].Str? then
          Ok(Disclosure(items[0].s, items[1].s, items[2], encoded, HashText(lib, encoded)))
        else Err(InvalidDisclosure)
      case _ => Err(InvalidDisclosure)
  }

  // ---- Issuance -------------------------------------------------------------------

  const DAY_SECS: int := 86_400
  const SALT_LENGTH: nat := 16

  /** What to issue. `disclosable` lists the disclosable claims in the order they are visited. */
  datatype IssueRequest = IssueRequest(
    issuer: string, vct: string, plain: map<string, Json>, disclosable: seq<(string, Json)>,
    cnf: Option<Json>, status: Option<Json>, x5c: Option<seq<string>>)

  ghost predicate DistinctNames(claims: seq<(string, Json)>) {
    forall i, j :: 0 <= i < j < |claims| ==> claims[i].0 != claims[j].0
  }

  function NewDisclosures(lib: Library, claims: seq<(string, Json)>, salts: seq<seq<byte>>): (ds: seq<Disclosure>)
    requires |salts| == |claims|
    ensures |ds| == |claims|
    ensures forall i :: 0 <= i < |ds| ==> ds[i] == NewDisclosure(lib, claims[i].0, claims[i].1, salts[i])
  {
    seq(|claims|, i requires 0 <= i < |claims| => NewDisclosure(lib, claims[i].0, claims[i].1, salts[i]))
  }

  function Hashes(ds: seq<Disclosure>): (h: seq<string>)
    ensures |h| == |ds| && forall i :: 0 <= i < |ds| ==> h[i] == ds[i].hash
  {
    seq(|ds|, i requires 0 <= i < |ds| => ds[i].hash)
  }

  function EncodedForms(ds: seq<Disclosure>): (e: seq<string>)
    ensures |e| == |ds| && forall i :: 0 <= i < |ds| ==> e[i] == ds[i].encoded
  {
    seq(|ds|, i requires 0 <= i < |ds| => ds[i].encoded)
  }

  /** Midnight UTC at the start of the day `now` is in. */
  function StartOfDay(now: int): int {
    now - now % DAY_SECS
  }

  /** The claims the issuer sets itself; an empty digest list is left out. */
  function BaseClaims(req: IssueRequest, hashes: seq<string>, issued: int): map<string, Json> {
    map["iss" := Str(req.issuer), "iat" := Num(issued), "exp" := Num(issued + DAY_SECS * 365),
        "nbf" := Num(issued), "vct" := Str(req.vct), "_sd_alg" := Str("sha-256")]
    + (if hashes == [] then map[] else map["_sd" := Arr(Texts(hashes))])
    + (if req.cnf.Some? then map["cnf" := req.cnf.value] else map[])
    + (if req.status.Some? then map["status" := req.status.value] else map[])
  }

  /** The payload: flattened plain claims come last, so they win over the issuer's own. */
  function Payload(req: IssueRequest, hashes: seq<string>, now: int): Json {
    Obj(BaseClaims(req, hashes, StartOfDay(now)) + req.plain)
  }

  function BuildHeader(key: Jwk, kid: string, typ: string, x5c: Option<seq<string>>): JwsHeader {
    JwsHeader(match AlgorithmForJwk(key) case Some(a) => a.Name() case None => "", Some(typ), Some(kid), None, x5c)
  }

  function IssuerJwt(lib: Library, key: Jwk, kid: string, req: IssueRequest, hashes: seq<string>, now: int): string {
    SignCompact(lib, key, BuildHeader(key, kid, "dc+sd-jwt", req.x5c), Payload(req, hashes, now))
  }

  /** Issue an SD-JWT VC; `salts` are the random bytes drawn, one draw per disclosable claim. */
  method IssueSdJwtVc(lib: Library, key: Jwk, kid: string, req: IssueRequest, salts: seq<seq<byte>>, now: int)
    returns (compact: string, disclosures: seq<Disclosure>)
    requires |salts| == |req.disclosable|
    ensures disclosures == NewDisclosures(lib, req.disclosable, salts)
    ensures compact == Compact(SdJwtVc(IssuerJwt(lib, key, kid, req, Hashes(disclosures), now),
                                       EncodedForms(disclosures), None))
  {
    hide NewDisclosure, IssuerJwt, Join;
    disclosures := [];
    var sdHashes: seq<string> := [];
    for i := 0 to |req.disclosable|
      invariant disclosures == NewDisclosures(lib, req.disclosable, salts)[..i]
      invariant sdHashes == Hashes(disclosures)
    {
      var (name, value) := req.disclosable[i];
      var disclosure := NewDisclosure(lib, name, value, salts[i]);
      sdHashes := sdHashes + [disclosure.hash];
      disclosures := disclosures + [disclosure];
    }
    var issuerJwt := IssuerJwt(lib, key, kid, req, sdHashes, now);
    var parts := [issuerJwt];
    for i := 0 to |disclosures|
      invariant parts == [issuerJwt] + EncodedForms(disclosures)[..i]
    {
      parts := parts + [disclosures[i].encoded];
    }
    parts := parts + [""];
    assert parts == Parts(SdJwtVc(issuerJwt, EncodedForms(disclosures), None));
    compact := Join(parts, SEPARATOR);
  }

  // ---- Verification -----------------------------------------------------------------

  datatype VerifiedSdJwtVc = VerifiedSdJwtVc(claims: map<string, Json>, payload: Json)
  {
    function HolderJwk(): Option<Jwk> {
      match payload.Get("cnf")
      case Some(cnf) => (match cnf.Get("jwk") case Some(j) => JwkFromJson(j) case None => None)
      case None => None
    }
  }

  predicate InWindow(payload: Json, now: int) {
    && (match payload.GetInt("exp") case Some(exp) => now < exp case None => true)
    && (match payload.GetInt("nbf") case Some(nbf) => nbf <= now case None => true)
  }

  /** The `_sd` digests; anything but an array of text counts as none. */
  function SdArray(payload: Json): seq<string> {
    match payload.Get("_sd")
    case Some(Arr(items)) => (match ReadTexts(items) case Some(t) => t case None => [])
    case _ => []
  }

  /** One step of the disclosure loop. */
  function Disclose(lib: Library, sd: seq<string>, text: string, seen: set<string>): Result<Disclosure, SdJwtError> {
    var d :- FromEncoded(lib, text);
    if d.hash in seen || d.hash !in sd then Err(Verification) else Ok(d)
  }

  function DiscloseAll(lib: Library, sd: seq<string>, texts: seq<string>, seen: set<string>, claims: map<string, Json>)
    : Result<map<string, Json>, SdJwtError>
  {
    if texts == [] then Ok(claims)
    else
      var d :- Disclose(lib, sd, texts[0], seen);
      DiscloseAll(lib, sd, texts[1..], seen + {d.hash}, claims[d.claimName := d.claimValue])
  }

  const RESERVED: set<string> := {"iss", "iat", "exp", "nbf", "vct", "cnf", "status"}

  /** Payload members a relying party sees as claims. */
  predicate Visible(name: string) {
    !(name != "" && name[0] == '_') && name !in RESERVED
  }

  function VisibleClaims(payload: Json): map<string, Json> {
    match payload
    case Obj(fields) => map name | name in fields && Visible(name) :: fields[name]
    case _ => map[]
  }

  function Verified(lib: Library, sdJwt: string, issuerKey: Jwk, now: int): Result<VerifiedSdJwtVc, SdJwtError> {
    match Parsed(sdJwt)
    case Err(_) => Err(Verification)
    case Ok(parsed) =>
      match VerifyCompact(lib, parsed.issuerJwt, issuerKey)
      case Err(_) => Err(Verification)
      case Ok(decoded) =>
        match lib.parseJson(decoded.payload)
        case None => Err(Verification)
        case Some(payload) =>
          if !InWindow(payload, now) then Err(Verification)
          else
            var disclosed :- DiscloseAll(lib, SdArray(payload), parsed.disclosures, {}, map[]);
            Ok(VerifiedSdJwtVc(disclosed + VisibleClaims(payload), payload))
  }

  method VerifySdJwtVc(lib: Library, sdJwt: string, issuerKey: Jwk, now: int)
    returns (r: Result<VerifiedSdJwtVc, SdJwtError>)
    ensures r == Verified(lib, sdJwt, issuerKey, now)
  {
    var parsedOrError := Parse(sdJwt);
    if parsedOrError.Err? { return Err(Verification); }
    var parsed := parsedOrError.value;
    var decodedOrError := VerifyCompact(lib, parsed.issuerJwt, issuerKey);
    if decodedOrError.Err? { return Err(Verification); }
    var payloadOrNone := lib.parseJson(decodedOrError.value.payload);
    if payloadOrNone.None? { return Err(Verification); }
    var payload := payloadOrNone.value;
    if !InWindow(payload, now) { return Err(Verification); }

    var sdArray := SdArray(payload);
    var disclosedClaims: map<string, Json> := map[];
    var seenHashes: set<string> := {};
    for i := 0 to |parsed.disclosures|
      invariant DiscloseAll(lib, sdArray, parsed.disclosures[i..], seenHashes, disclosedClaims)
             == DiscloseAll(lib, sdArray, parsed.disclosures, {}, map[])
    {
      assert parsed.disclosures[i..][1..] == parsed.disclosures[i + 1..];
      var disclosure :- FromEncoded(lib, parsed.disclosures[i]);
      if disclosure.hash in seenHashes { return Err(Verification); }
      seenHashes := seenHashes + {disclosure.hash};
      if disclosure.hash !in sdArray { return Err(Verification); }
      disclosedClaims := disclosedClaims[disclosure.claimName := disclosure.claimValue];
    }
    r := Ok(VerifiedSdJwtVc(disclosedClaims + VisibleClaims(payload), payload));
  }

  // ---- Key binding --------------------------------------------------------------------

  /** The hash of the presentation up to and including its last `~`. */
  function ComputeSdHash(lib: Library, presentation: string): string {
    match LastIndex(presentation, SEPARATOR)
    case Some(at) => HashText(lib, presentation[..at + 1])
    case None => HashText(lib, presentation)
  }

  function VerifyKeyBinding(lib: Library, presentation: string, holder: Jwk, nonce: string, audience: string)
    : Result<(), SdJwtError>
  {
    match Parsed(presentation)
    case Err(_) => Err(KeyBinding(MalformedPresentation))
    case Ok(parsed) =>
      match parsed.keyBindingJwt
      case None => Err(KeyBinding(Missing))
      case Some(kb) =>
        match DecodeCompact(lib, kb)
        case Err(_) => Err(KeyBinding(MalformedJwt))
        case Ok(decoded) =>
          match AlgorithmForJwk(holder)
          case None => Err(KeyBinding(UnsupportedKey))
          case Some(alg) =>
            if decoded.header.alg != alg.Name() then Err(KeyBinding(WrongAlg))
            else if decoded.header.typ != Some("kb+jwt") then Err(KeyBinding(WrongTyp))
            else if !lib.verify(holder, decoded.signingInput, decoded.signature) then Err(KeyBinding(BadSignature))
            else
              match lib.parseJson(decoded.payload)
              case None => Err(KeyBinding(MalformedJwt))
              case Some(payload) => CheckKeyBindingClaims(lib, presentation, kb, payload, nonce, audience)
  }

  function CheckKeyBindingClaims(lib: Library, presentation: string, kb: string, payload: Json, nonce: string,
                                 audience: string)
    : Result<(), SdJwtError>
  {
    match payload.GetStr("nonce")
    case None => Err(KeyBinding(NonceMissing))
    case Some(n) =>
      if n != nonce then Err(KeyBinding(NonceMismatch))
      else match payload.GetStr("aud")
        case None => Err(KeyBinding(AudienceMissing))
        case Some(a) =>
          if a != audience then Err(KeyBinding(AudienceMismatch))
          else match StripSuffix(presentation, kb)
            case None => Err(KeyBinding(MalformedPresentation))
            case Some(withoutKb) =>
              match payload.GetStr("sd_hash")
              case None => Err(KeyBinding(HashMissing))
              case Some(h) => if h == ComputeSdHash(lib, withoutKb) then Ok(()) else Err(KeyBinding(HashMismatch))
  }

  function CreateKeyBindingJwt(lib: Library, holder: Jwk, nonce: string, audience: string, sdHash: string, now: int)
    : string
  {
    var header := JwsHeader(match AlgorithmForJwk(holder) case Some(a) => a.Name() case None => "",
                            Some("kb+jwt"), None, Some(holder), None);
    SignCompact(lib, holder, header,
                Obj(map["nonce" := Str(nonce), "aud" := Str(audience), "iat" := Num(now), "sd_hash" := Str(sdHash)]))
  }
}
