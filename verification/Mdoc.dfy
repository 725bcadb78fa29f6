/** ISO/IEC 18013-5 mdocs: issuance, presentation over OpenID4VP, and verification. */
module Mdoc {
  import opened Wrappers
  import opened Base64
  import opened Cose
  import Jws
  import X509
  import RandomDraw

  datatype MdocError =
    | Cbor | Malformed | Untrusted | IssuerSignature | DigestMismatch
    | Validity | DeviceAuthentication | Unsupported | CoseFailure

  const TAG_ENCODED_CBOR: nat := 24
  const TAG_TDATE: nat := 0
  const NANOS: int := 1_000_000_000
  const ID_BOUND: nat := 0x1_0000_0000
  const SALT_LENGTH: nat := 32

  /** The codec, certificates, RFC 3339 text, and the rendering of a data element as JSON.
      Instants are nanoseconds since the epoch. */
  datatype Library = Library(
    codec: Codec,
    certs: X509.CertLibrary<ByteString>,
    printDate: int -> string,
    parseDate: string -> Option<int>,
    toJson: Value -> Jws.Json)

  /** Whole seconds in the years RFC 3339 can write. */
  predicate Writable(at: int) {
    at % NANOS == 0 && -62_167_219_200 * NANOS <= at < 253_402_300_800 * NANOS
  }

  /** A written date reads back as the instant it was. */
  ghost predicate DatesReadBack(lib: Library) {
    forall at :: Writable(at) ==> lib.parseDate(lib.printDate(at)) == Some(at)
  }

  // ---- CBOR helpers -----------------------------------------------------------------

  /** A data item carried as its own encoding. */
  function Embed(v: Value): Value {
    Tag(TAG_ENCODED_CBOR, Bytes(Encoded(v)))
  }

  function Unembed(lib: Library, v: Value): Result<Value, MdocError> {
    if v.Tag? && v.tag == TAG_ENCODED_CBOR && v.inner.Bytes? then
      match DecodeItem(lib.codec, v.inner.bytes) case Some(item) => Ok(item) case None => Err(Cbor)
    else Err(Malformed)
  }

  function Decoded(lib: Library, b: ByteString): Result<Value, MdocError> {
    match DecodeItem(lib.codec, b) case Some(v) => Ok(v) case None => Err(Cbor)
  }

  function Require(v: Value, key: string): Result<Value, MdocError> {
    match Get(v, key) case Some(found) => Ok(found) case None => Err(Malformed)
  }

  function RequireText(v: Value, key: string): Result<string, MdocError> {
    var found :- Require(v, key);
    if found.Text? then Ok(found.s) else Err(Malformed)
  }

  function Tdate(lib: Library, at: int): Value {
    Tag(TAG_TDATE, Text(lib.printDate(at)))
  }

  function ParseTdate(lib: Library, v: Value): Result<int, MdocError> {
    if v.Tag? && v.tag == TAG_TDATE && v.inner.Text? then
      match lib.parseDate(v.inner.s) case Some(at) => Ok(at) case None => Err(Malformed)
    else Err(Malformed)
  }

  // ---- Issuance -----------------------------------------------------------------------

  datatype StatusRef = StatusRef(idx: nat, uri: string)

  datatype Element = Element(identifier: string, value: Value)

  datatype Namespace = Namespace(name: string, elements: seq<Element>)

  /** Data elements by namespace, in the map's order: no namespace twice. */
  datatype IssueRequest = IssueRequest(
    docType: string, namespaces: seq<Namespace>, deviceKey: Jws.Jwk,
    signed: int, validFrom: int, validUntil: int,
    status: Option<StatusRef>, x5chain: seq<ByteString>)

  ghost predicate DistinctNames(namespaces: seq<Namespace>) {
    forall i, j :: 0 <= i < j < |namespaces| ==> namespaces[i].name != namespaces[j].name
  }

  function WholeSeconds(at: int): int {
    at / NANOS * NANOS
  }

  datatype ValidityInfo = ValidityInfo(signed: int, validFrom: int, validUntil: int)

  /** The period the MSO gets: whole seconds, starting no earlier than it was signed. */
  function Period(req: IssueRequest): ValidityInfo {
    var signed := WholeSeconds(req.signed);
    var from := WholeSeconds(req.validFrom);
    ValidityInfo(signed, if from < signed then signed else from, WholeSeconds(req.validUntil))
  }

  /** What is drawn for one element: its digest ID and its salt. */
  datatype Draw = Draw(id: nat, salt: seq<byte>)

  /** Each draw's salt is the one drawn at its own position of the source, no position used twice and
      all of them after `start`, up to `end`. */
  ghost predicate Salted(ds: seq<Draw>, places: seq<nat>, salt: nat -> seq<byte>, start: nat, end: nat) {
    && |places| == |ds| && start <= end
    && (forall i :: 0 <= i < |ds| ==> ds[i].salt == salt(places[i]) && start < places[i] <= end)
    && (forall i, j :: 0 <= i < j < |ds| ==> places[i] < places[j])
  }

  /** The same for all namespaces together. */
  ghost predicate AllSalted(draws: seq<seq<Draw>>, places: seq<seq<nat>>, salt: nat -> seq<byte>) {
    && |places| == |draws| && (forall i :: 0 <= i < |draws| ==> |places[i]| == |draws[i]|)
    && (forall i, j :: 0 <= i < |draws| && 0 <= j < |draws[i]| ==> draws[i][j].salt == salt(places[i][j]))
    && Apart(places)
  }

  /** No position twice. */
  ghost predicate Apart(places: seq<seq<nat>>) {
    forall i, j, k, l | 0 <= i < |places| && 0 <= j < |places[i]| && 0 <= k < |places| && 0 <= l < |places[k]| ::
      places[i][j] == places[k][l] ==> i == k && j == l
  }

  /** The `random` of item `j` of namespace `i`, as a reader of the bytes finds it. */
  function RandomOf(lib: Library, issuerSigned: ByteString, i: nat, j: nat): Option<seq<byte>> {
    match DecodeItem(lib.codec, issuerSigned)
    case None => None
    case Some(v) =>
      match Get(v, "nameSpaces")
      case Some(Map(spaces)) =>
        if i < |spaces| && spaces[i].1.Array? && j < |spaces[i].1.items| then
          (match Unembed(lib, spaces[i].1.items[j])
           case Err(_) => None
           case Ok(item) => (match Get(item, "random") case Some(Bytes(Raw(salt))) => Some(salt) case _ => None))
        else None
      case _ => None
  }

  function SignedItem(e: Element, d: Draw): Value {
    Map([(Text("digestID"), Integer(d.id)), (Text("random"), Bytes(Raw(d.salt))),
         (Text("elementIdentifier"), Text(e.identifier)), (Text("elementValue"), e.value)])
  }

  function ItemBytes(e: Element, d: Draw): Value {
    Embed(SignedItem(e, d))
  }

  function DigestEntry(e: Element, d: Draw): (Value, Value) {
    (Integer(d.id), Bytes(Digest(Encoded(ItemBytes(e, d)))))
  }

  function Items(es: seq<Element>, ds: seq<Draw>): (items: seq<Value>)
    requires |es| == |ds|
  {
    seq(|es|, i requires 0 <= i < |es| => ItemBytes(es[i], ds[i]))
  }

  function Digests(es: seq<Element>, ds: seq<Draw>): (entries: seq<(Value, Value)>)
    requires |es| == |ds|
  {
    seq(|es|, i requires 0 <= i < |es| => DigestEntry(es[i], ds[i]))
  }

  /** One draw for every element. */
  ghost predicate Fits(namespaces: seq<Namespace>, draws: seq<seq<Draw>>) {
    |namespaces| == |draws| && forall i :: 0 <= i < |namespaces| ==> |namespaces[i].elements| == |draws[i]|
  }

  ghost predicate DistinctIds(ds: seq<Draw>) {
    && (forall i :: 0 <= i < |ds| ==> ds[i].id < ID_BOUND)
    && (forall i, j :: 0 <= i < j < |ds| ==> ds[i].id != ds[j].id)
  }

  ghost function NameSpaces(namespaces: seq<Namespace>, draws: seq<seq<Draw>>): seq<(Value, Value)>
    requires Fits(namespaces, draws)
  {
    seq(|namespaces|, i requires 0 <= i < |namespaces| => (Text(namespaces[i].name),
                                                           Array(Items(namespaces[i].elements, draws[i]))))
  }

  ghost function ValueDigests(namespaces: seq<Namespace>, draws: seq<seq<Draw>>): seq<(Value, Value)>
    requires Fits(namespaces, draws)
  {
    seq(|namespaces|, i requires 0 <= i < |namespaces| => (Text(namespaces[i].name),
                                                           Map(Digests(namespaces[i].elements, draws[i]))))
  }

  function StatusEntry(status: Option<StatusRef>): seq<(Value, Value)> {
    match status
    case None => []
    case Some(s) => [(Text("status"), Map([(Text("status_list"),
                                            Map([(Text("idx"), Integer(s.idx)), (Text("uri"), Text(s.uri))]))]))]
  }

  function MsoEntries(lib: Library, req: IssueRequest, deviceKey: Value, digests: seq<(Value, Value)>)
    : seq<(Value, Value)>
  {
    var v := Period(req);
    [(Text("version"), Text("1.0")), (Text("digestAlgorithm"), Text("SHA-256")), (Text("valueDigests"), Map(digests)),
     (Text("deviceKeyInfo"), Map([(Text("deviceKey"), deviceKey)])), (Text("docType"), Text(req.docType)),
     (Text("validityInfo"), Map([(Text("signed"), Tdate(lib, v.signed)), (Text("validFrom"), Tdate(lib, v.validFrom)),
                                 (Text("validUntil"), Tdate(lib, v.validUntil))]))]
    + StatusEntry(req.status)
  }

  /** What the issuer signs: the embedded MSO, as bytes. */
  function MsoPayload(lib: Library, req: IssueRequest, deviceKey: Value, digests: seq<(Value, Value)>): ByteString {
    Encoded(Embed(Map(MsoEntries(lib, req, deviceKey, digests))))
  }

  function IssuerSignedValue(nameSpaces: seq<(Value, Value)>, issuerAuth: Value): Value {
    Map([(Text("nameSpaces"), Map(nameSpaces)), (Text("issuerAuth"), issuerAuth)])
  }

  /** A request that can be issued: a period that is not empty and a key with a COSE form. */
  predicate Issuable(req: IssueRequest) {
    Period(req).validFrom < Period(req).validUntil && CoseKey(req.deviceKey).Some?
  }

  ghost function Payload(lib: Library, req: IssueRequest, draws: seq<seq<Draw>>): ByteString
    requires Issuable(req) && Fits(req.namespaces, draws)
  {
    MsoPayload(lib, req, CoseKey(req.deviceKey).value, ValueDigests(req.namespaces, draws))
  }

  ghost function IssuerAuth(lib: Library, req: IssueRequest, key: PublicKey, draws: seq<seq<Draw>>): Value
    requires Issuable(req) && Fits(req.namespaces, draws)
  {
    Sign(key, Payload(lib, req, draws), [], ChainHeader(req.x5chain))
  }

  /** The mdoc a request becomes, given what was drawn. */
  ghost function Issued(lib: Library, req: IssueRequest, key: PublicKey, draws: seq<seq<Draw>>): ByteString
    requires Issuable(req) && Fits(req.namespaces, draws)
  {
    Encoded(IssuerSignedValue(NameSpaces(req.namespaces, draws), IssuerAuth(lib, req, key, draws)))
  }

  ghost function Ids(ds: seq<Draw>): (ids: set<nat>)
    ensures forall i :: 0 <= i < |ds| ==> ds[i].id in ids
    ensures forall id :: id in ids ==> exists i :: 0 <= i < |ds| && ds[i].id == id
    ensures |ids| <= |ds|
  {
    if ds == [] then {} else Ids(ds[..|ds| - 1]) + {ds[|ds| - 1].id}
  }

  /** All positions used so far. */
  ghost predicate UpTo(places: seq<seq<nat>>, end: nat) {
    forall i, j :: 0 <= i < |places| && 0 <= j < |places[i]| ==> places[i][j] <= end
  }

  lemma NothingSalted(salt: nat -> seq<byte>)
    ensures AllSalted([], [], salt) && UpTo([], 0)
  {
  }

  lemma NothingDrawn(salt: nat -> seq<byte>, start: nat)
    ensures Salted([], [], salt, start, start)
  {
  }

  lemma OneMoreDrawn(ds: seq<Draw>, places: seq<nat>, salt: nat -> seq<byte>, start: nat, end: nat, d: Draw, n: nat)
    requires Salted(ds, places, salt, start, end) && end < n && d.salt == salt(n)
    ensures Salted(ds + [d], places + [n], salt, start, n)
  {
  }

  /** One more namespace, drawn later. */
  lemma SaltedOn(draws: seq<seq<Draw>>, places: seq<seq<nat>>, ds: seq<Draw>, at: seq<nat>, salt: nat -> seq<byte>,
                 start: nat, end: nat)
    requires AllSalted(draws, places, salt) && UpTo(places, start) && Salted(ds, at, salt, start, end)
    ensures AllSalted(draws + [ds], places + [at], salt) && UpTo(places + [at], end)
  {
  }

  /** The elements of one namespace, each under a digest ID no other one has and with a salt of its own. */
  method IssueNamespace(es: seq<Element>, draw: nat -> nat, salt: nat -> seq<byte>, start: nat)
    returns (items: seq<Value>, digests: seq<(Value, Value)>, next: nat, ghost ds: seq<Draw>, ghost places: seq<nat>)
    requires |es| <= ID_BOUND && RandomDraw.Fair(draw, ID_BOUND)
    ensures |items| == |digests| == |es|
    ensures forall i :: 0 <= i < |es| ==> digests[i].1 == Bytes(Digest(Encoded(items[i])))
    ensures forall i, j :: 0 <= i < j < |es| ==> digests[i].0 != digests[j].0
    ensures |ds| == |es| && DistinctIds(ds) && Salted(ds, places, salt, start, next)
    ensures items == Items(es, ds) && digests == Digests(es, ds)
  {
    hide ItemBytes, Salted;
    var ids: set<nat> := {};
    NothingDrawn(salt, start);
    items, digests, next, ds, places := [], [], start, [], [];
    for k := 0 to |es|
      invariant Salted(ds, places, salt, start, next)
      invariant |ds| == |items| == |digests| == k && |ids| <= k
      invariant DistinctIds(ds) && forall i :: 0 <= i < k ==> ds[i].id in ids
      invariant forall i :: 0 <= i < k ==> items[i] == ItemBytes(es[i], ds[i])
                                           && digests[i] == DigestEntry(es[i], ds[i])
    {
      var id, n := RandomDraw.DrawFresh(draw, next, ids, ID_BOUND);
      ids := ids + {id};
      var d := Draw(id, salt(n));
      OneMoreDrawn(ds, places, salt, start, next, d, n);
      ds, places := ds + [d], places + [n];
      items := items + [ItemBytes(es[k], d)];
      digests := digests + [DigestEntry(es[k], d)];
      next := n;
    }
  }

  /** Issue an mdoc. It fails only when the period is empty or the device key has no COSE form. */
  method Issue(lib: Library, req: IssueRequest, key: PublicKey, draw: nat -> nat, salt: nat -> seq<byte>)
    returns (r: Result<ByteString, MdocError>, ghost draws: seq<seq<Draw>>, ghost places: seq<seq<nat>>)
    requires RandomDraw.Fair(draw, ID_BOUND)
    requires forall i :: 0 <= i < |req.namespaces| ==> |req.namespaces[i].elements| <= ID_BOUND
    ensures r.Ok? <==> Issuable(req)
    ensures Period(req).validUntil <= Period(req).validFrom ==> r == Err(Validity)
    ensures r.Ok? ==> Fits(req.namespaces, draws) && forall i :: 0 <= i < |draws| ==> DistinctIds(draws[i])
    ensures AllSalted(draws, places, salt)
    ensures r.Ok? ==> r == Ok(Issued(lib, req, key, draws))
  {
    hide DistinctIds, Items, Digests, MsoEntries, AllSalted, Salted;
    var nameSpaces: seq<(Value, Value)>, valueDigests: seq<(Value, Value)> := [], [];
    draws, places := [], [];
    NothingSalted(salt);
    if Period(req).validUntil <= Period(req).validFrom {
      return Err(Validity), [], [];
    }
    var next := 0;
    for k := 0 to |req.namespaces|
      invariant |draws| == |nameSpaces| == |valueDigests| == k
      invariant AllSalted(draws, places, salt) && UpTo(places, next)
      invariant forall i :: 0 <= i < k ==> |req.namespaces[i].elements| == |draws[i]| && DistinctIds(draws[i])
      invariant forall i :: 0 <= i < k ==>
        && nameSpaces[i] == (Text(req.namespaces[i].name), Array(Items(req.namespaces[i].elements, draws[i])))
        && valueDigests[i] == (Text(req.namespaces[i].name), Map(Digests(req.namespaces[i].elements, draws[i])))
    {
      var items, digests, n, ds, at := IssueNamespace(req.namespaces[k].elements, draw, salt, next);
      SaltedOn(draws, places, ds, at, salt, next, n);
      nameSpaces := nameSpaces + [(Text(req.namespaces[k].name), Array(items))];
      valueDigests := valueDigests + [(Text(req.namespaces[k].name), Map(digests))];
      draws, places := draws + [ds], places + [at];
      next := n;
    }
    var deviceKey := CoseKey(req.deviceKey);
    if deviceKey.None? {
      return Err(CoseFailure), draws, places;
    }
    assert nameSpaces == NameSpaces(req.namespaces, draws) && valueDigests == ValueDigests(req.namespaces, draws);
    var payload := MsoPayload(lib, req, deviceKey.value, valueDigests);
    var issuerAuth := Sign(key, payload, [], ChainHeader(req.x5chain));
    r := Ok(Encoded(IssuerSignedValue(nameSpaces, issuerAuth)));
  }

  // ---- Verification of IssuerSigned ------------------------------------------------------

  type Claims = map<string, map<string, Jws.Json>>

  datatype VerifiedMdoc = VerifiedMdoc(
    docType: string, claims: Claims, deviceKey: Jws.Jwk, validity: ValidityInfo,
    status: Option<StatusRef>, signerCertificate: ByteString)

  /** The signer's chain: from the unprotected header, or else the protected one. */
  function IssuerX5chain(auth: Sign1): Result<seq<ByteString>, MdocError> {
    match X5chain(auth.unprotected)
    case None => Err(CoseFailure)
    case Some(chain) =>
      if chain != [] then Ok(chain)
      else match X5chain(auth.protectedHeader)
        case None => Err(CoseFailure)
        case Some(other) => if other == [] then Err(Untrusted) else Ok(other)
  }

  function ReadSign1(lib: Library, v: Value): Result<Sign1, MdocError> {
    match FromValue(lib.codec, v) case Some(sign1) => Ok(sign1) case None => Err(CoseFailure)
  }

  datatype Authenticated = Authenticated(chain: seq<ByteString>, payload: ByteString, signature: ByteString)

  /** Step 1: the MSO signature, under a chain to a trust anchor. */
  function Authenticate(lib: Library, v: Value, anchors: seq<ByteString>, now: int)
    : (r: Result<Authenticated, MdocError>)
    ensures r.Ok? ==> r.value.chain != []
  {
    var authValue :- Require(v, "issuerAuth");
    var auth :- ReadSign1(lib, authValue);
    var chain :- IssuerX5chain(auth);
    match X509.ValidateChain(lib.certs, chain, anchors, now)
    case Err(_) => Err(Untrusted)
    case Ok(key) =>
      if !Verify(lib.codec, auth, key) then Err(IssuerSignature)
      else Ok(Authenticated(chain, auth.payload.value, auth.signature))
  }

  /** Step 2: the MSO, its version, digest algorithm and document type. */
  function ReadMso(lib: Library, payload: ByteString, expected: Option<string>): Result<(Value, string), MdocError> {
    var embedded :- Decoded(lib, payload);
    var mso :- Unembed(lib, embedded);
    var version :- RequireText(mso, "version");
    if version != "1.0" then Err(Unsupported)
    else
      var algorithm :- RequireText(mso, "digestAlgorithm");
      if algorithm != "SHA-256" then Err(Unsupported)
      else
        var docType :- RequireText(mso, "docType");
        if expected.Some? && docType != expected.value then Err(Malformed) else Ok((mso, docType))
  }

  function ReadDate(lib: Library, validity: Value, field: string): Result<int, MdocError> {
    var v :- Require(validity, field);
    ParseTdate(lib, v)
  }

  /** Step 3: now is within the period, and the chain was valid when the MSO was signed. */
  function CheckValidity(lib: Library, mso: Value, chain: seq<ByteString>, anchors: seq<ByteString>, now: int)
    : Result<ValidityInfo, MdocError>
  {
    var info :- Require(mso, "validityInfo");
    var signed :- ReadDate(lib, info, "signed");
    var from :- ReadDate(lib, info, "validFrom");
    var until :- ReadDate(lib, info, "validUntil");
    if now < from || now > until then Err(Validity)
    else if X509.ValidateChain(lib.certs, chain, anchors, signed).Err? then Err(Validity)
    else Ok(ValidityInfo(signed, from, until))
  }

  /** The digest the issuer signed for an ID. */
  function SignedDigest(digests: Value, id: int): Option<ByteString> {
    match Lookup(digests, Integer(id)) case Some(Bytes(b)) => Some(b) case _ => None
  }

  /** One revealed element: its identifier and value, when it hashes to the signed digest. */
  function CheckItem(lib: Library, digests: Value, itemBytes: Value): Result<Element, MdocError> {
    var item :- Unembed(lib, itemBytes);
    var identifier :- RequireText(item, "elementIdentifier");
    var id :- Require(item, "digestID");
    if !id.Integer? then Err(Malformed)
    else if SignedDigest(digests, id.i) != Some(Digest(Encoded(itemBytes))) then Err(DigestMismatch)
    else
      var value :- Require(item, "elementValue");
      Ok(Element(identifier, value))
  }

  function CheckItems(lib: Library, digests: Value, items: seq<Value>, elements: map<string, Jws.Json>)
    : Result<map<string, Jws.Json>, MdocError>
  {
    if items == [] then Ok(elements)
    else
      var e :- CheckItem(lib, digests, items[0]);
      if e.identifier in elements then Err(Malformed)
      else CheckItems(lib, digests, items[1..], elements[e.identifier := lib.toJson(e.value)])
  }

  function ElementsOf(claims: Claims, name: string): map<string, Jws.Json> {
    if name in claims then claims[name] else map[]
  }

  function CheckNameSpaces(lib: Library, valueDigests: Value, spaces: seq<(Value, Value)>, claims: Claims)
    : Result<Claims, MdocError>
  {
    if spaces == [] then Ok(claims)
    else
      var (namespace, items) := spaces[0];
      if !namespace.Text? then Err(Malformed)
      else match Get(valueDigests, namespace.s)
        case None => Err(DigestMismatch)
        case Some(digests) =>
          if !items.Array? then Err(Malformed)
          else
            var elements :- CheckItems(lib, digests, items.items, ElementsOf(claims, namespace.s));
            CheckNameSpaces(lib, valueDigests, spaces[1..], claims[namespace.s := elements])
  }

  /** Step 4: every revealed element hashes to the digest the issuer signed for it. */
  method CheckRevealed(lib: Library, valueDigests: Value, spaces: seq<(Value, Value)>)
    returns (r: Result<Claims, MdocError>)
    ensures r == CheckNameSpaces(lib, valueDigests, spaces, map[])
  {
    var claims: Claims := map[];
    for k := 0 to |spaces|
      invariant CheckNameSpaces(lib, valueDigests, spaces, map[])
                == CheckNameSpaces(lib, valueDigests, spaces[k..], claims)
    {
      var (namespace, items) := spaces[k];
      if !namespace.Text? {
        return Err(Malformed);
      }
      var digests := Get(valueDigests, namespace.s);
      if digests.None? {
        return Err(DigestMismatch);
      }
      if !items.Array? {
        return Err(Malformed);
      }
      var elements := ElementsOf(claims, namespace.s);
      ghost var before := elements;
      for j := 0 to |items.items|
        invariant CheckItems(lib, digests.value, items.items, before)
                  == CheckItems(lib, digests.value, items.items[j..], elements)
      {
        var e := CheckItem(lib, digests.value, items.items[j]);
        if e.Err? {
          return Err(e.error);
        }
        if e.value.identifier in elements {
          return Err(Malformed);
        }
        elements := elements[e.value.identifier := lib.toJson(e.value.value)];
        assert items.items[j..][1..] == items.items[j + 1..];
      }
      claims := claims[namespace.s := elements];
      assert spaces[k..][1..] == spaces[k + 1..];
    }
    r := Ok(claims);
  }

  function RevealedClaims(lib: Library, v: Value, valueDigests: Value): Result<Claims, MdocError> {
    match Get(v, "nameSpaces")
    case None => Ok(map[])
    case Some(spaces) => 
      if !spaces.Map? then Err(Malformed) else CheckNameSpaces(lib, valueDigests, spaces.entries, map[])
  }

  function DeviceKeyOf(lib: Library, mso: Value): Result<Jws.Jwk, MdocError> {
    var info :- Require(mso, "deviceKeyInfo");
    var key :- Require(info, "deviceKey");
    match JwkFromCoseKey(lib.codec, key) case Some(jwk) => Ok(jwk) case None => Err(CoseFailure)
  }

  function ParseStatus(mso: Value): Result<Option<StatusRef>, MdocError> {
    match Get(mso, "status")
    case None => Ok(None)
    case Some(status) =>
      match Get(status, "status_list")
      case None => Ok(None)
      case Some(list) =>
        var idx :- Require(list, "idx");
        if !idx.Integer? || idx.i < 0 || idx.i >= 0x1_0000_0000_0000_0000 then Err(Malformed)
        else
          var uri :- RequireText(list, "uri");
          Ok(Some(StatusRef(idx.i, uri)))
  }

  /** Verify an `IssuerSigned` structure; `expected` is the document type it is presented as. */
  function VerifyIssuerSigned(lib: Library, v: Value, expected: Option<string>, anchors: seq<ByteString>, now: int)
    : Result<VerifiedMdoc, MdocError>
  {
    var auth :- Authenticate(lib, v, anchors, now);
    var (mso, docType) :- ReadMso(lib, auth.payload, expected);
    var validity :- CheckValidity(lib, mso, auth.chain, anchors, now);
    var valueDigests :- Require(mso, "valueDigests");
    var claims :- RevealedClaims(lib, v, valueDigests);
    var deviceKey :- DeviceKeyOf(lib, mso);
    var status :- ParseStatus(mso);
    Ok(VerifiedMdoc(docType, claims, deviceKey, validity, status, auth.chain[0]))
  }

  // ---- Presentation ------------------------------------------------------------------------

  /** The transcript of one OpenID4VP request (OpenID4VP 1.0 Appendix B.2.6.1). */
  function SessionTranscript(clientId: string, nonce: string, thumbprint: Option<ByteString>, responseUri: string)
    : Value
  {
    var info := Encoded(Array([Text(clientId), Text(nonce), if thumbprint.Some? then Bytes(thumbprint.value) else Null,
                               Text(responseUri)]));
    Array([Null, Null, Array([Text("OpenID4VPHandover"), Bytes(Digest(info))])])
  }

  /** What the device key signs. */
  function DeviceAuthenticationBytes(transcript: Value, docType: string, deviceNameSpaces: Value): ByteString {
    Encoded(Embed(Array([Text("DeviceAuthentication"), transcript, Text(docType), deviceNameSpaces])))
  }

  predicate Kept(lib: Library, name: string, disclose: seq<(string, string)>, itemBytes: Value) {
    match Unembed(lib, itemBytes)
    case Err(_) => false
    case Ok(item) =>
      match Get(item, "elementIdentifier")
      case Some(Text(id)) => (name, id) in disclose
      case _ => false
  }

  function KeptOf(lib: Library, name: string, disclose: seq<(string, string)>, items: seq<Value>): seq<Value> {
    if items == [] then []
    else (if Kept(lib, name, disclose, items[0]) then [items[0]] else []) + KeptOf(lib, name, disclose, items[1..])
  }

  function KeptItems(lib: Library, space: (Value, Value), disclose: seq<(string, string)>): seq<Value> {
    var name := if space.0.Text? then space.0.s else "";
    KeptOf(lib, name, disclose, if space.1.Array? then space.1.items else [])
  }

  function Revealed(lib: Library, spaces: seq<(Value, Value)>, disclose: seq<(string, string)>): seq<(Value, Value)> {
    if spaces == [] then []
    else
      var kept := KeptItems(lib, spaces[0], disclose);
      (if kept == [] then [] else [(spaces[0].0, Array(kept))]) + Revealed(lib, spaces[1..], disclose)
  }

  method Reveal(lib: Library, spaces: seq<(Value, Value)>, disclose: seq<(string, string)>)
    returns (revealed: seq<(Value, Value)>)
    ensures revealed == Revealed(lib, spaces, disclose)
  {
    hide KeptItems;
    revealed := [];
    for k := 0 to |spaces|
      invariant revealed + Revealed(lib, spaces[k..], disclose) == Revealed(lib, spaces, disclose)
    {
      var kept := KeptItems(lib, spaces[k], disclose);
      assert spaces[k..][1..] == spaces[k + 1..];
      if kept != [] {
        var entry := (spaces[k].0, Array(kept));
        assert revealed + ([entry] + Revealed(lib, spaces[k + 1..], disclose))
               == (revealed + [entry]) + Revealed(lib, spaces[k + 1..], disclose);
        revealed := revealed + [entry];
      } else {
        assert [] + Revealed(lib, spaces[k + 1..], disclose) == Revealed(lib, spaces[k + 1..], disclose);
      }
    }
    assert revealed + [] == revealed;
  }

  function SpacesOf(issuerSigned: Value): seq<(Value, Value)> {
    match Get(issuerSigned, "nameSpaces") case Some(Map(entries)) => entries case _ => []
  }

  /** The response with one document: what is revealed, and the device key's signature. */
  function DeviceResponse(docType: string, revealed: seq<(Value, Value)>, issuerAuth: Value, transcript: Value,
                          key: PublicKey): Value {
    var deviceNameSpaces := Embed(Map([]));
    var signature := SignDetached(key, DeviceAuthenticationBytes(transcript, docType, deviceNameSpaces));
    Map([(Text("version"), Text("1.0")),
         (Text("documents"), Array([Map([
            (Text("docType"), Text(docType)),
            (Text("issuerSigned"), IssuerSignedValue(revealed, issuerAuth)),
            (Text("deviceSigned"), Map([
               (Text("nameSpaces"), deviceNameSpaces),
               (Text("deviceAuth"), Map([(Text("deviceSignature"), signature)]))]))])])),
         (Text("status"), Integer(0))])
  }

  /** Present an issued mdoc, revealing the elements named in `disclose`. */
  function Present(lib: Library, issuerSigned: ByteString, disclose: seq<(string, string)>, transcript: Value,
                   key: PublicKey)
    : Result<ByteString, MdocError>
  {
    var signed :- Decoded(lib, issuerSigned);
    var issuerAuth :- Require(signed, "issuerAuth");
    var auth :- ReadSign1(lib, issuerAuth);
    if auth.payload.None? then Err(Malformed)
    else
      var embedded :- Decoded(lib, auth.payload.value);
      var mso :- Unembed(lib, embedded);
      var docType :- RequireText(mso, "docType");
      Ok(Encoded(DeviceResponse(docType, Revealed(lib, SpacesOf(signed), disclose), issuerAuth, transcript, key)))
  }

  // ---- Verification of a DeviceResponse -------------------------------------------------------

  function DeviceSignature(lib: Library, deviceAuth: Value): Result<Sign1, MdocError> {
    match Get(deviceAuth, "deviceSignature")
    case Some(signature) => ReadSign1(lib, signature)
    case None => if Get(deviceAuth, "deviceMac").Some? then Err(Unsupported) else Err(Malformed)
  }

  function VerifyDocument(lib: Library, document: Value, transcript: Value, anchors: seq<ByteString>, now: int)
    : Result<VerifiedMdoc, MdocError>
  {
    var docType :- RequireText(document, "docType");
    var issuerSigned :- Require(document, "issuerSigned");
    var verified :- VerifyIssuerSigned(lib, issuerSigned, Some(docType), anchors, now);
    var deviceSigned :- Require(document, "deviceSigned");
    var deviceNameSpaces :- Require(deviceSigned, "nameSpaces");
    var deviceAuth :- Require(deviceSigned, "deviceAuth");
    var signature :- DeviceSignature(lib, deviceAuth);
    if VerifyDetached(lib.codec, signature, DeviceAuthenticationBytes(transcript, docType, deviceNameSpaces),
                      verified.deviceKey)
    then Ok(verified) else Err(DeviceAuthentication)
  }

  function VerifyDocuments(lib: Library, documents: seq<Value>, transcript: Value, anchors: seq<ByteString>, now: int)
    : Result<seq<VerifiedMdoc>, MdocError>
  {
    if documents == [] then Ok([])
    else
      var first :- VerifyDocument(lib, documents[0], transcript, anchors, now);
      var rest :- VerifyDocuments(lib, documents[1..], transcript, anchors, now);
      Ok([first] + rest)
  }

  /** The documents of a response are accepted iff each of them is, with their results in order. */
  lemma {:induction false} AllDocumentsVerify(lib: Library, documents: seq<Value>, transcript: Value,
                                              anchors: seq<ByteString>, now: int)
    ensures var r := VerifyDocuments(lib, documents, transcript, anchors, now);
            && (r.Ok? <==> forall i :: 0 <= i < |documents| ==>
                             VerifyDocument(lib, documents[i], transcript, anchors, now).Ok?)
            && (r.Ok? ==>
                  && |r.value| == |documents|
                  && forall i :: 0 <= i < |documents| ==>
                       VerifyDocument(lib, documents[i], transcript, anchors, now) == Ok(r.value[i]))
  {
    hide VerifyDocument;
    if documents != [] {
      AllDocumentsVerify(lib, documents[1..], transcript, anchors, now);
      assert forall i :: 0 <= i < |documents| - 1 ==> documents[1..][i] == documents[i + 1];
    }
  }

  function DocumentsOf(response: Value): Result<seq<Value>, MdocError> {
    var version :- RequireText(response, "version");
    if version != "1.0" then Err(Unsupported)
    else
      var status :- Require(response, "status");
      if status != Integer(0) then Err(Malformed)
      else match Get(response, "documents")
        case Some(Array(docs)) => if docs == [] then Err(Malformed) else Ok(docs)
        case _ => Err(Malformed)
  }

  /** Verify a `DeviceResponse` against the transcript the verifier computed itself. */
  function VerifyDeviceResponse(lib: Library, response: ByteString, transcript: Value, anchors: seq<ByteString>,
                                now: int)
    : Result<seq<VerifiedMdoc>, MdocError>
  {
    var decoded :- Decoded(lib, response);
    var documents :- DocumentsOf(decoded);
    VerifyDocuments(lib, documents, transcript, anchors, now)
  }
}
