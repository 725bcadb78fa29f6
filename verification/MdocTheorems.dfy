/** What an accepted mdoc says: it is what was issued, restricted to what was disclosed, for one transcript. */
module MdocTheorems {
  import opened Wrappers
  import opened Base64
  import opened Cose
  import opened Mdoc
  import Jws
  import X509

  // ---- One element ------------------------------------------------------------------

  lemma ItemReads(lib: Library, e: Element, d: Draw)
    ensures ItemBytes(e, d) == Tag(24, Bytes(Encoded(SignedItem(e, d))))
    ensures Unembed(lib, ItemBytes(e, d)) == Ok(SignedItem(e, d))
    ensures Require(SignedItem(e, d), "digestID") == Ok(Integer(d.id))
    ensures Get(SignedItem(e, d), "random") == Some(Bytes(Raw(d.salt)))
    ensures Get(SignedItem(e, d), "elementIdentifier") == Some(Text(e.identifier))
    ensures RequireText(SignedItem(e, d), "elementIdentifier") == Ok(e.identifier)
    ensures Require(SignedItem(e, d), "elementValue") == Ok(e.value)
  {
    hide Find;
    var entries := SignedItem(e, d).entries;
    assert |"digestID"| == 8 && |"random"| == 6 && |"elementIdentifier"| == 17 && |"elementValue"| == 12;
    FindAt(entries, 0);
    FindAt(entries, 1);
    FindAt(entries, 2);
    FindAt(entries, 3);
  }

  /** Reading item `j` of namespace `i` of an issued mdoc finds the salt drawn for that element. */
  lemma SaltReadsBack(lib: Library, req: IssueRequest, key: PublicKey, draws: seq<seq<Draw>>, i: nat, j: nat)
    requires Issuable(req) && Fits(req.namespaces, draws) && i < |draws| && j < |draws[i]|
    ensures RandomOf(lib, Issued(lib, req, key, draws), i, j) == Some(draws[i][j].salt)
  {
    hide Find, IssuerAuth, Unembed, ItemBytes, SignedItem;
    var spaces := NameSpaces(req.namespaces, draws);
    var value := IssuerSignedValue(spaces, IssuerAuth(lib, req, key, draws));
    FindAt(value.entries, 0);
    var e, d := req.namespaces[i].elements[j], draws[i][j];
    assert spaces[i].1.items[j] == ItemBytes(e, d);
    ItemReads(lib, e, d);
  }

  /** Every element of an issued mdoc carries, as a reader finds it, 32 bytes drawn at a position of the
      random source that no other element of the mdoc used, in its namespace or another. */
  lemma SaltsAreDrawn(lib: Library, req: IssueRequest, key: PublicKey, draws: seq<seq<Draw>>, places: seq<seq<nat>>,
                      salt: nat -> seq<byte>)
    requires Issuable(req) && Fits(req.namespaces, draws) && AllSalted(draws, places, salt)
    requires forall k :: |salt(k)| == 32
    ensures |places| == |req.namespaces|
    ensures forall i :: 0 <= i < |places| ==> |places[i]| == |req.namespaces[i].elements|
    ensures forall i, j :: 0 <= i < |places| && 0 <= j < |places[i]| ==>
              && RandomOf(lib, Issued(lib, req, key, draws), i, j) == Some(salt(places[i][j]))
              && |RandomOf(lib, Issued(lib, req, key, draws), i, j).value| == 32
    ensures Apart(places)
  {
    hide Issued, RandomOf;
    forall i, j | 0 <= i < |places| && 0 <= j < |places[i]|
      ensures RandomOf(lib, Issued(lib, req, key, draws), i, j) == Some(salt(places[i][j]))
    {
      SaltReadsBack(lib, req, key, draws, i, j);
    }
  }

  /** Digest IDs are unique, so looking one up finds the digest of its own element. */
  lemma DigestFound(es: seq<Element>, ds: seq<Draw>, k: nat)
    requires |es| == |ds| && k < |es| && DistinctIds(ds)
    ensures SignedDigest(Map(Digests(es, ds)), ds[k].id) == Some(Digest(Encoded(ItemBytes(es[k], ds[k]))))
  {
    hide Find, ItemBytes;
    var entries := Digests(es, ds);
    forall i | 0 <= i < k ensures entries[i].0 != entries[k].0 {
      assert ds[i].id != ds[k].id;
    }
    FindAt(entries, k);
  }

  lemma IssuedItemAccepted(lib: Library, es: seq<Element>, ds: seq<Draw>, k: nat)
    requires |es| == |ds| && k < |es| && DistinctIds(ds)
    ensures CheckItem(lib, Map(Digests(es, ds)), ItemBytes(es[k], ds[k])) == Ok(es[k])
  {
    hide Unembed, Require, RequireText, SignedDigest, ItemBytes, SignedItem, Digests;
    ItemReads(lib, es[k], ds[k]);
    DigestFound(es, ds, k);
  }

  /** Were a digest ID used twice, the second element could never be shown: looking its ID up finds
      the first one's digest. */
  lemma SharedIdShadows(lib: Library, es: seq<Element>, ds: seq<Draw>, j: nat, k: nat)
    requires |es| == |ds| && j < k < |es| && ds[j].id == ds[k].id
    requires forall i :: 0 <= i < j ==> ds[i].id != ds[j].id
    ensures CheckItem(lib, Map(Digests(es, ds)), ItemBytes(es[k], ds[k]))
         == if ItemBytes(es[j], ds[j]) == ItemBytes(es[k], ds[k]) then Ok(es[k]) else Err(DigestMismatch)
  {
    hide Unembed, Require, RequireText, ItemBytes, SignedItem, Find;
    var entries := Digests(es, ds);
    FindAt(entries, j);
    ItemReads(lib, es[k], ds[k]);
  }

  /** An element that is accepted is one of those that were issued, digest ID, salt and all. */
  lemma AcceptedItemWasIssued(lib: Library, es: seq<Element>, ds: seq<Draw>, itemBytes: Value) returns (k: nat)
    requires |es| == |ds| && CheckItem(lib, Map(Digests(es, ds)), itemBytes).Ok?
    ensures k < |es| && itemBytes == ItemBytes(es[k], ds[k])
    ensures CheckItem(lib, Map(Digests(es, ds)), itemBytes) == Ok(es[k])
  {
    hide Unembed, Require, RequireText, ItemBytes, SignedItem, Find;
    var id := Require(Unembed(lib, itemBytes).value, "digestID").value.i;
    var entries := Digests(es, ds);
    assert Find(entries, Integer(id)) == Some(Bytes(Digest(Encoded(itemBytes))));
    k :| 0 <= k < |entries| && entries[k] == (Integer(id), Bytes(Digest(Encoded(itemBytes))));
    assert entries[k] == DigestEntry(es[k], ds[k]);
    ItemReads(lib, es[k], ds[k]);
  }

  // ---- Soundness -----------------------------------------------------------------------

  /** The request has this element, in this namespace, with this value. */
  ghost predicate InRequest(lib: Library, namespaces: seq<Namespace>, name: string, identifier: string,
                            value: Jws.Json) {
    exists i, j :: 0 <= i < |namespaces| && 0 <= j < |namespaces[i].elements|
      && IsElement(lib, namespaces[i], namespaces[i].elements[j], name, identifier, value)
  }

  ghost predicate IsElement(lib: Library, ns: Namespace, e: Element, name: string, identifier: string,
                            value: Jws.Json) {
    ns.name == name && e.identifier == identifier && lib.toJson(e.value) == value
  }

  ghost predicate ElementsInRequest(lib: Library, namespaces: seq<Namespace>, name: string,
                                    elements: map<string, Jws.Json>) {
    forall id :: id in elements ==> InRequest(lib, namespaces, name, id, elements[id])
  }

  ghost predicate ClaimsInRequest(lib: Library, namespaces: seq<Namespace>, claims: Claims) {
    forall name :: name in claims ==> ElementsInRequest(lib, namespaces, name, claims[name])
  }

  lemma {:induction false} ItemsSound(lib: Library, namespaces: seq<Namespace>, i: nat, ds: seq<Draw>,
                                      items: seq<Value>, elements: map<string, Jws.Json>)
    requires i < |namespaces| && |namespaces[i].elements| == |ds|
    requires ElementsInRequest(lib, namespaces, namespaces[i].name, elements)
    requires CheckItems(lib, Map(Digests(namespaces[i].elements, ds)), items, elements).Ok?
    ensures var r := CheckItems(lib, Map(Digests(namespaces[i].elements, ds)), items, elements).value;
            ElementsInRequest(lib, namespaces, namespaces[i].name, r) && |r| == |elements| + |items|
    decreases |items|
  {
    hide CheckItem, Digests;
    if items != [] {
      var k := AcceptedItemWasIssued(lib, namespaces[i].elements, ds, items[0]);
      var e := namespaces[i].elements[k];
      assert IsElement(lib, namespaces[i], e, namespaces[i].name, e.identifier, lib.toJson(e.value));
      ItemsSound(lib, namespaces, i, ds, items[1..], elements[e.identifier := lib.toJson(e.value)]);
    }
  }

  lemma {:induction false} NameSpacesSound(lib: Library, namespaces: seq<Namespace>, draws: seq<seq<Draw>>,
                                           spaces: seq<(Value, Value)>, claims: Claims)
    requires Fits(namespaces, draws) && ClaimsInRequest(lib, namespaces, claims)
    requires CheckNameSpaces(lib, Map(ValueDigests(namespaces, draws)), spaces, claims).Ok?
    ensures ClaimsInRequest(lib, namespaces, CheckNameSpaces(lib, Map(ValueDigests(namespaces, draws)), spaces,
                                                             claims).value)
    decreases |spaces|
  {
    hide CheckItems, ElementsInRequest, Find;
    if spaces != [] {
      var (namespace, items) := spaces[0];
      var entries := ValueDigests(namespaces, draws);
      var digests := Find(entries, namespace).value;
      var i :| 0 <= i < |entries| && entries[i] == (namespace, digests);
      assert digests == Map(Digests(namespaces[i].elements, draws[i])) && namespaces[i].name == namespace.s;
      var before := ElementsOf(claims, namespace.s);
      NothingInRequest(lib, namespaces, namespace.s);
      ItemsSound(lib, namespaces, i, draws[i], items.items, before);
      var elements := CheckItems(lib, digests, items.items, before).value;
      NameSpacesSound(lib, namespaces, draws, spaces[1..], claims[namespace.s := elements]);
    }
  }

  lemma NothingInRequest(lib: Library, namespaces: seq<Namespace>, name: string)
    ensures ElementsInRequest(lib, namespaces, name, map[])
  {
  }

  // ---- Reading back the MSO -----------------------------------------------------------------

  /** The three instants are ones RFC 3339 can write, and the status index is a 64-bit one. */
  predicate Printable(req: IssueRequest) {
    && Writable(Period(req).signed) && Writable(Period(req).validFrom) && Writable(Period(req).validUntil)
    && (req.status.Some? ==> req.status.value.idx < 0x1_0000_0000_0000_0000)
  }

  ghost function MsoOf(lib: Library, req: IssueRequest, draws: seq<seq<Draw>>): Value
    requires Issuable(req) && Fits(req.namespaces, draws)
  {
    Map(MsoEntries(lib, req, CoseKey(req.deviceKey).value, ValueDigests(req.namespaces, draws)))
  }

  lemma MsoKeysDistinct()
    ensures |"version"| == 7 && |"digestAlgorithm"| == 15 && |"valueDigests"| == 12 && |"deviceKeyInfo"| == 13
    ensures |"docType"| == 7 && |"status"| == 6 && "version" != "docType" && |"validityInfo"| == 12
            && "valueDigests" != "validityInfo"
  {
  }

  lemma MsoFields(lib: Library, req: IssueRequest, draws: seq<seq<Draw>>)
    requires Issuable(req) && Fits(req.namespaces, draws)
    ensures var mso := MsoOf(lib, req, draws);
            && Get(mso, "version") == Some(Text("1.0")) && Get(mso, "digestAlgorithm") == Some(Text("SHA-256"))
            && Get(mso, "valueDigests") == Some(Map(ValueDigests(req.namespaces, draws)))
            && Get(mso, "deviceKeyInfo") == Some(Map([(Text("deviceKey"), CoseKey(req.deviceKey).value)]))
            && Get(mso, "docType") == Some(Text(req.docType))
  {
    hide Find, StatusEntry, ValueDigests, CoseKey, Period, Tdate;
    FirstFields(CoseKey(req.deviceKey).value, ValueDigests(req.namespaces, draws), req.docType, ValidityEntry(lib, req),
                StatusEntry(req.status));
  }

  lemma FirstFields(deviceKey: Value, digests: seq<(Value, Value)>, docType: string, validity: Value,
                    rest: seq<(Value, Value)>)
    ensures var mso := Map([(Text("version"), Text("1.0")), (Text("digestAlgorithm"), Text("SHA-256")),
                            (Text("valueDigests"), Map(digests)),
                            (Text("deviceKeyInfo"), Map([(Text("deviceKey"), deviceKey)])), (Text("docType"),
                                                                                             Text(docType)),
                            (Text("validityInfo"), validity)] + rest);
            && Get(mso, "version") == Some(Text("1.0")) && Get(mso, "digestAlgorithm") == Some(Text("SHA-256"))
            && Get(mso, "valueDigests") == Some(Map(digests))
            && Get(mso, "deviceKeyInfo") == Some(Map([(Text("deviceKey"), deviceKey)]))
            && Get(mso, "docType") == Some(Text(docType))
  {
    hide Find;
    var entries := [(Text("version"), Text("1.0")), (Text("digestAlgorithm"), Text("SHA-256")),
                    (Text("valueDigests"), Map(digests)),
                    (Text("deviceKeyInfo"), Map([(Text("deviceKey"), deviceKey)])), (Text("docType"), Text(docType)),
                    (Text("validityInfo"), validity)] + rest;
    MsoKeysDistinct();
    FindAt(entries, 0);
    FindAt(entries, 1);
    FindAt(entries, 2);
    FindAt(entries, 3);
    FindAt(entries, 4);
  }

  ghost function ValidityEntry(lib: Library, req: IssueRequest): Value {
    var v := Period(req);
    Map([(Text("signed"), Tdate(lib, v.signed)), (Text("validFrom"), Tdate(lib, v.validFrom)),
         (Text("validUntil"), Tdate(lib, v.validUntil))])
  }

  lemma MsoLastFields(lib: Library, req: IssueRequest, draws: seq<seq<Draw>>)
    requires Issuable(req) && Fits(req.namespaces, draws)
    ensures Get(MsoOf(lib, req, draws), "validityInfo") == Some(ValidityEntry(lib, req))
    ensures Get(MsoOf(lib, req, draws), "status")
         == if req.status.None? then None else Some(StatusEntry(req.status)[0].1)
  {
    hide Find, ValueDigests, CoseKey, Period;
    var entries := MsoOf(lib, req, draws).entries;
    MsoKeysDistinct();
    FindAt(entries, 5);
    if req.status.Some? {
      assert entries[6] == StatusEntry(req.status)[0];
      FindAt(entries, 6);
    } else {
      assert |entries| == 6;
    }
  }

  lemma MsoReads(lib: Library, req: IssueRequest, draws: seq<seq<Draw>>, expected: Option<string>)
    requires Issuable(req) && Fits(req.namespaces, draws)
    ensures ReadMso(lib, Payload(lib, req, draws), expected)
         == if expected.Some? && expected.value != req.docType then Err(Malformed)
            else Ok((MsoOf(lib, req, draws), req.docType))
  {
    hide Get, MsoEntries, ValueDigests;
    MsoFields(lib, req, draws);
  }

  lemma DatesRead(lib: Library, req: IssueRequest)
    requires DatesReadBack(lib) && Printable(req)
    ensures var info := ValidityEntry(lib, req);
            && ReadDate(lib, info, "signed") == Ok(Period(req).signed)
            && ReadDate(lib, info, "validFrom") == Ok(Period(req).validFrom)
            && ReadDate(lib, info, "validUntil") == Ok(Period(req).validUntil)
  {
    hide Find, Period, Writable;
    var entries := ValidityEntry(lib, req).entries;
    assert |"signed"| == 6 && |"validFrom"| == 9 && |"validUntil"| == 10;
    FindAt(entries, 0);
    FindAt(entries, 1);
    FindAt(entries, 2);
  }

  lemma ValidityReads(lib: Library, req: IssueRequest, draws: seq<seq<Draw>>, chain: seq<ByteString>,
                      anchors: seq<ByteString>, now: int)
    requires Issuable(req) && Fits(req.namespaces, draws) && DatesReadBack(lib) && Printable(req)
    ensures CheckValidity(lib, MsoOf(lib, req, draws), chain, anchors, now)
         == if Period(req).validFrom <= now <= Period(req).validUntil
         && X509.ValidateChain(lib.certs, chain, anchors, Period(req).signed).Ok?
            then Ok(Period(req)) else Err(Validity)
  {
    hide ReadDate, ValidityEntry, Period, X509.ValidateChain, Get;
    MsoLastFields(lib, req, draws);
    DatesRead(lib, req);
  }

  lemma DeviceKeyReads(lib: Library, req: IssueRequest, draws: seq<seq<Draw>>)
    requires Issuable(req) && Fits(req.namespaces, draws)
    ensures DeviceKeyOf(lib, MsoOf(lib, req, draws)) == Ok(PublicPart(req.deviceKey))
  {
    hide CoseKey, JwkFromCoseKey, MsoEntries, ValueDigests, Find;
    MsoFields(lib, req, draws);
    CoseKeyRoundTrip(lib.codec, req.deviceKey);
    FindAt([(Text("deviceKey"), CoseKey(req.deviceKey).value)], 0);
  }

  lemma StatusReads(lib: Library, req: IssueRequest, draws: seq<seq<Draw>>)
    requires Issuable(req) && Fits(req.namespaces, draws) && Printable(req)
    ensures ParseStatus(MsoOf(lib, req, draws)) == Ok(req.status)
  {
    hide CoseKey, MsoEntries, ValueDigests, Find, Period, Writable;
    MsoLastFields(lib, req, draws);
    if req.status.Some? {
      var s := req.status.value;
      var list := Map([(Text("idx"), Integer(s.idx)), (Text("uri"), Text(s.uri))]);
      assert "idx"[0] != "uri"[0];
      FindAt([(Text("status_list"), list)], 0);
      FindAt(list.entries, 0);
      FindAt(list.entries, 1);
    }
  }

  /** The period of an MSO: each instant asked for, rounded down to its second, but never starting
      before the MSO was signed. */
  lemma PeriodMeans(req: IssueRequest)
    ensures var p := Period(req);
            && p.signed <= req.signed < p.signed + NANOS && p.validUntil <= req.validUntil < p.validUntil + NANOS
            && p.signed % NANOS == 0 && p.validFrom % NANOS == 0 && p.validUntil % NANOS == 0
            && p.signed <= p.validFrom
            && (p.validFrom <= req.validFrom < p.validFrom + NANOS
                || (p.validFrom == p.signed && req.validFrom < p.signed))
  {
  }

  /** An accepted mdoc agrees with the request whose MSO it is accepted under. */
  ghost predicate Agrees(lib: Library, req: IssueRequest, m: VerifiedMdoc) {
    && m.docType == req.docType
    && m.deviceKey == PublicPart(req.deviceKey)
    && m.validity == Period(req)
    && m.status == req.status
    && ClaimsInRequest(lib, req.namespaces, m.claims)
  }

  /** Whatever CBOR is offered as `IssuerSigned`: if it is accepted under the MSO of an issued
      request, it says only what the request said. */
  lemma AcceptedAgrees(lib: Library, req: IssueRequest, draws: seq<seq<Draw>>,
                       v: Value, expected: Option<string>, anchors: seq<ByteString>, now: int)
    requires DatesReadBack(lib) && Issuable(req) && Printable(req) && Fits(req.namespaces, draws)
    requires VerifyIssuerSigned(lib, v, expected, anchors, now).Ok?
    requires Authenticate(lib, v, anchors, now).value.payload == Payload(lib, req, draws)
    ensures Agrees(lib, req, VerifyIssuerSigned(lib, v, expected, anchors, now).value)
  {
    hide Authenticate, ReadMso, CheckValidity, DeviceKeyOf, ParseStatus, MsoOf, Payload, ValueDigests, CheckNameSpaces,
         ClaimsInRequest;
    var auth := Authenticate(lib, v, anchors, now).value;
    MsoReads(lib, req, draws, expected);
    ValidityReads(lib, req, draws, auth.chain, anchors, now);
    DeviceKeyReads(lib, req, draws);
    StatusReads(lib, req, draws);
    RevealedSound(lib, req, draws, v);
  }

  lemma RevealedSound(lib: Library, req: IssueRequest, draws: seq<seq<Draw>>, v: Value)
    requires Issuable(req) && Fits(req.namespaces, draws)
    ensures Require(MsoOf(lib, req, draws), "valueDigests") == Ok(Map(ValueDigests(req.namespaces, draws)))
    ensures var r := RevealedClaims(lib, v, Map(ValueDigests(req.namespaces, draws)));
            r.Ok? ==> ClaimsInRequest(lib, req.namespaces, r.value)
  {
    hide MsoOf, ValueDigests, CheckNameSpaces;
    MsoFields(lib, req, draws);
    var spaces := Get(v, "nameSpaces");
    if spaces.Some? && spaces.value.Map? && RevealedClaims(lib, v, Map(ValueDigests(req.namespaces, draws))).Ok? {
      NameSpacesSound(lib, req.namespaces, draws, spaces.value.entries, map[]);
    }
  }

  // ---- Nothing else was signed -------------------------------------------------------------

  datatype Issuance = Issuance(req: IssueRequest, draws: seq<seq<Draw>>)

  ghost predicate Proper(i: Issuance) {
    Issuable(i.req) && Printable(i.req) && Fits(i.req.namespaces, i.draws)
  }

  /** All the key signed: the MSOs of these requests, status list tokens (a CBOR map, with any
      header), and JWTs (plain text). */
  ghost predicate SignedOnly(lib: Library, key: PublicKey, issued: seq<Issuance>, signature: ByteString) {
    signature.Signature? && signature.key == key ==>
      || (exists i :: 0 <= i < |issued| && Proper(issued[i])
           && signature.over == ToBeSigned(ProtectedFor(key, []), Payload(lib, issued[i].req, issued[i].draws)))
      || (exists extra, claims :: signature.over == ToBeSigned(ProtectedFor(key, extra), Encoded(Map(claims))))
      || signature.over.Raw?
  }

  lemma MapIsNoMso(lib: Library, claims: seq<(Value, Value)>, expected: Option<string>)
    ensures ReadMso(lib, Encoded(Map(claims)), expected).Err?
  {
  }

  lemma CheckedPayload(lib: Library, v: Value, anchors: seq<ByteString>, now: int)
    requires Authenticate(lib, v, anchors, now).Ok?
    ensures var auth := Authenticate(lib, v, anchors, now).value;
            && auth.signature.Signature?
            && auth.signature.over.Encoded?
            && (forall p, payload :: auth.signature.over == ToBeSigned(p, payload) ==> auth.payload == payload)
  {
    hide KeyOf, CheckAlgorithm, FromValue, X5chain, X509.ValidateChain, Get;
  }

  /** If the document signer's key signed only issued MSOs and status lists, every accepted mdoc
      agrees with a request that was issued. */
  lemma AcceptedWasIssued(lib: Library, key: PublicKey, issued: seq<Issuance>,
                          v: Value, expected: Option<string>, anchors: seq<ByteString>, now: int) returns (i: nat)
    requires DatesReadBack(lib)
    requires VerifyIssuerSigned(lib, v, expected, anchors, now).Ok?
    requires var auth := Authenticate(lib, v, anchors, now).value;
             auth.signature.Signature? && auth.signature.key == key && SignedOnly(lib, key, issued, auth.signature)
    ensures i < |issued| && Agrees(lib, issued[i].req, VerifyIssuerSigned(lib, v, expected, anchors, now).value)
  {
    hide Authenticate, ReadMso, CheckValidity, DeviceKeyOf, ParseStatus, Payload, RevealedClaims, ToBeSigned,
         ProtectedFor;
    var auth := Authenticate(lib, v, anchors, now).value;
    CheckedPayload(lib, v, anchors, now);
    forall claims ensures auth.payload != Encoded(Map(claims)) {
      MapIsNoMso(lib, claims, expected);
    }
    i :| 0 <= i < |issued| && Proper(issued[i])
         && auth.signature.over == ToBeSigned(ProtectedFor(key, []), Payload(lib, issued[i].req, issued[i].draws));
    AcceptedAgrees(lib, issued[i].req, issued[i].draws, v, expected, anchors, now);
  }

  /** The `IssuerSigned` of one document of a response. */
  function IssuerSignedOf(lib: Library, response: ByteString, d: nat): Option<(Value, string)> {
    match Decoded(lib, response)
    case Err(_) => None
    case Ok(v) =>
      match DocumentsOf(v)
      case Err(_) => None
      case Ok(documents) =>
        if d >= |documents| then None
        else match (Require(documents[d], "issuerSigned"), RequireText(documents[d], "docType"))
          case (Ok(signed), Ok(docType)) => Some((signed, docType))
          case _ => None
  }

  lemma ReturnedWasVerified(lib: Library, response: ByteString, transcript: Value, anchors: seq<ByteString>, now: int,
                            d: nat)
    requires VerifyDeviceResponse(lib, response, transcript, anchors, now).Ok?
    requires d < |VerifyDeviceResponse(lib, response, transcript, anchors, now).value|
    ensures var doc := IssuerSignedOf(lib, response, d);
            doc.Some? && VerifyIssuerSigned(lib, doc.value.0, Some(doc.value.1), anchors, now)
                         == Ok(VerifyDeviceResponse(lib, response, transcript, anchors, now).value[d])
  {
    hide VerifyDocument, RequireText;
    var documents := DocumentsOf(Decoded(lib, response).value).value;
    AllDocumentsVerify(lib, documents, transcript, anchors, now);
    DocumentWasVerified(lib, documents[d], transcript, anchors, now);
  }

  lemma DocumentWasVerified(lib: Library, document: Value, transcript: Value, anchors: seq<ByteString>, now: int)
    requires VerifyDocument(lib, document, transcript, anchors, now).Ok?
    ensures var signed, docType := Require(document, "issuerSigned"), RequireText(document, "docType");
            signed.Ok? && docType.Ok? && VerifyIssuerSigned(lib, signed.value, Some(docType.value), anchors, now)
                                         == VerifyDocument(lib, document, transcript, anchors, now)
  {
    hide VerifyIssuerSigned, Require, RequireText, DeviceSignature, VerifyDetached;
  }

  /** Every document a response is accepted for agrees with an issued request, if the signer's key
      signed only issued MSOs, status lists and JWTs. */
  lemma ReturnedWasIssued(lib: Library, key: PublicKey, issued: seq<Issuance>, response: ByteString, transcript: Value,
                          anchors: seq<ByteString>, now: int, d: nat) returns (i: nat)
    requires DatesReadBack(lib)
    requires VerifyDeviceResponse(lib, response, transcript, anchors, now).Ok?
    requires d < |VerifyDeviceResponse(lib, response, transcript, anchors, now).value|
    requires var doc := IssuerSignedOf(lib, response, d);
             doc.Some? && Authenticate(lib, doc.value.0, anchors, now).Ok? &&
             var signature := Authenticate(lib, doc.value.0, anchors, now).value.signature;
             signature.Signature? && signature.key == key && SignedOnly(lib, key, issued, signature)
    ensures i < |issued|
    ensures Agrees(lib, issued[i].req, VerifyDeviceResponse(lib, response, transcript, anchors, now).value[d])
  {
    hide VerifyDeviceResponse, IssuerSignedOf, Authenticate, SignedOnly, Agrees;
    ReturnedWasVerified(lib, response, transcript, anchors, now, d);
    var doc := IssuerSignedOf(lib, response, d).value;
    i := AcceptedWasIssued(lib, key, issued, doc.0, Some(doc.1), anchors, now);
  }

  // ---- One transcript --------------------------------------------------------------------------

  /** The transcript is the OpenID4VP handover of the request: no engagement, no reader key, and the hash of
      client, nonce, thumbprint and response URI. Two requests have one transcript iff these four all agree. */
  lemma TranscriptsDiffer(c1: string, n1: string, t1: Option<ByteString>, u1: string,
                          c2: string, n2: string, t2: Option<ByteString>, u2: string)
    ensures SessionTranscript(c1, n1, t1, u1) == SessionTranscript(c2, n2, t2, u2)
       <==> c1 == c2 && n1 == n2 && t1 == t2 && u1 == u2
    ensures SessionTranscript(c1, n1, t1, u1)
         == Array([Null, Null, Array([Text("OpenID4VPHandover"), Bytes(Digest(Encoded(
              Array([Text(c1), Text(n1), if t1.Some? then Bytes(t1.value) else Null, Text(u1)]))))])])
  {
  }

  lemma DeviceBytesDiffer(t1: Value, d1: string, n1: Value, t2: Value, d2: string, n2: Value)
    ensures DeviceAuthenticationBytes(t1, d1, n1) == DeviceAuthenticationBytes(t2, d2, n2)
            <==> t1 == t2 && d1 == d2 && n1 == n2
  {
  }

  lemma ToBeSignedDiffers(p: ByteString, a: ByteString, b: ByteString)
    ensures ToBeSigned(p, a) == ToBeSigned(p, b) <==> a == b
  {
  }

  /** No document, however made, is accepted for two transcripts. */
  lemma OneTranscript(lib: Library, document: Value, t1: Value, t2: Value, anchors: seq<ByteString>, now1: int,
                      now2: int)
    requires VerifyDocument(lib, document, t1, anchors, now1).Ok?
    requires VerifyDocument(lib, document, t2, anchors, now2).Ok?
    ensures t1 == t2
  {
    hide VerifyIssuerSigned, DeviceSignature, DeviceAuthenticationBytes, ToBeSigned, KeyOf, CheckAlgorithm;
    var docType := RequireText(document, "docType").value;
    var deviceSigned := Require(document, "deviceSigned").value;
    var names := Require(deviceSigned, "nameSpaces").value;
    var signature := DeviceSignature(lib, Require(deviceSigned, "deviceAuth").value).value;
    ToBeSignedDiffers(signature.protectedBytes, DeviceAuthenticationBytes(t1, docType, names),
                      DeviceAuthenticationBytes(t2, docType, names));
    DeviceBytesDiffer(t1, docType, names, t2, docType, names);
  }

  /** With one trust anchor, the chain of an accepted mdoc was valid at every instant between signing and now. */
  lemma ChainValidThroughout(lib: Library, v: Value, expected: Option<string>, anchor: ByteString, now: int, at: int)
    requires VerifyIssuerSigned(lib, v, expected, [anchor], now).Ok?
    requires var signed := VerifyIssuerSigned(lib, v, expected, [anchor], now).value.validity.signed;
             signed <= at <= now || now <= at <= signed
    ensures X509.ValidateChain(lib.certs, Authenticate(lib, v, [anchor], now).value.chain, [anchor], at).Ok?
  {
    hide X509.ValidateChain, Verify, ReadMso, RevealedClaims, DeviceKeyOf, ParseStatus, ReadSign1, Require, ReadDate;
    var chain := Authenticate(lib, v, [anchor], now).value.chain;
    var signed := VerifyIssuerSigned(lib, v, expected, [anchor], now).value.validity.signed;
    X509.AcceptedBetween(lib.certs, chain, anchor, now, signed, at);
  }

  // ---- What acceptance means for any input ------------------------------------------------------

  /** Any CBOR that is accepted: its chain leads to an anchor now and did when the MSO was signed, the
      leaf's key made the signature over the payload, and the MSO in it has the version, digest
      algorithm, document type and period that are reported. */
  lemma AcceptedMeans(lib: Library, v: Value, expected: Option<string>, anchors: seq<ByteString>, now: int)
    requires VerifyIssuerSigned(lib, v, expected, anchors, now).Ok?
    ensures var m := VerifyIssuerSigned(lib, v, expected, anchors, now).value;
            var auth := Authenticate(lib, v, anchors, now).value;
            var leaf := X509.ValidateChain(lib.certs, auth.chain, anchors, now);
            && Authenticate(lib, v, anchors, now).Ok? && leaf.Ok? && m.signerCertificate == auth.chain[0]
            && auth.signature.Signature? && KeyOf(lib.codec, leaf.value) == Some(auth.signature.key)
            && X509.ValidateChain(lib.certs, auth.chain, anchors, m.validity.signed).Ok?
            && m.validity.validFrom <= now <= m.validity.validUntil
            && (expected.Some? ==> expected == Some(m.docType))
  {
    hide KeyOf, CheckAlgorithm, FromValue, X5chain, X509.ValidateChain, Require, RequireText, ReadDate, RevealedClaims,
         DeviceKeyOf, ParseStatus;
  }

  lemma AcceptedMso(lib: Library, v: Value, expected: Option<string>, anchors: seq<ByteString>, now: int)
    requires VerifyIssuerSigned(lib, v, expected, anchors, now).Ok?
    ensures var auth := Authenticate(lib, v, anchors, now).value;
            var read := ReadMso(lib, auth.payload, expected);
            && read.Ok? && Get(read.value.0, "version") == Some(Text("1.0"))
            && Get(read.value.0, "digestAlgorithm") == Some(Text("SHA-256"))
            && Get(read.value.0, "docType") == Some(Text(VerifyIssuerSigned(lib, v, expected, anchors,
                                                                            now).value.docType))
  {
    hide Get, Authenticate, CheckValidity, RevealedClaims, DeviceKeyOf, ParseStatus;
  }

  /** Any accepted document: the device key the issuer signed made a signature over this transcript,
      for the document type both the document and the MSO name. */
  lemma DocumentMeans(lib: Library, document: Value, transcript: Value, anchors: seq<ByteString>, now: int)
    returns (protectedBytes: ByteString, deviceNameSpaces: Value, signature: ByteString)
    requires VerifyDocument(lib, document, transcript, anchors, now).Ok?
    ensures var m := VerifyDocument(lib, document, transcript, anchors, now).value;
            && RequireText(document, "docType") == Ok(m.docType)
            && signature.Signature? && KeyOf(lib.codec, m.deviceKey) == Some(signature.key)
            && signature.over
               == Encoded(Array([Text("Signature1"), Bytes(protectedBytes), Bytes(Raw([])), Bytes(Encoded(
                    Tag(24, Bytes(Encoded(Array([Text("DeviceAuthentication"), transcript, Text(m.docType),
                                                 deviceNameSpaces]))))))]))
  {
    hide VerifyIssuerSigned, DeviceSignature, DeviceAuthenticationBytes, ToBeSigned, KeyOf, CheckAlgorithm, Require;
    var docType := RequireText(document, "docType").value;
    var signed := Require(document, "issuerSigned").value;
    AcceptedMeans(lib, signed, Some(docType), anchors, now);
    var deviceSigned := Require(document, "deviceSigned").value;
    deviceNameSpaces := Require(deviceSigned, "nameSpaces").value;
    var sign1 := DeviceSignature(lib, Require(deviceSigned, "deviceAuth").value).value;
    protectedBytes, signature := sign1.protectedBytes, sign1.signature;
    DeviceBytesAre(transcript, docType, deviceNameSpaces, protectedBytes);
  }

  lemma DeviceBytesAre(transcript: Value, docType: string, names: Value, protectedBytes: ByteString)
    ensures ToBeSigned(protectedBytes, DeviceAuthenticationBytes(transcript, docType, names))
         == Encoded(Array([Text("Signature1"), Bytes(protectedBytes), Bytes(Raw([])), Bytes(Encoded(
              Tag(24, Bytes(Encoded(Array([Text("DeviceAuthentication"), transcript, Text(docType), names]))))))]))
  {
  }

  /** An accepted response has version 1.0, status OK and at least one document. */
  lemma ResponseMeans(lib: Library, response: ByteString, transcript: Value, anchors: seq<ByteString>, now: int)
    requires VerifyDeviceResponse(lib, response, transcript, anchors, now).Ok?
    ensures var v := DecodeItem(lib.codec, response);
            && v.Some? && Get(v.value, "version") == Some(Text("1.0")) && Get(v.value, "status") == Some(Integer(0))
            && VerifyDeviceResponse(lib, response, transcript, anchors, now).value != []
  {
    hide Get, VerifyDocument;
    AllDocumentsVerify(lib, DocumentsOf(Decoded(lib, response).value).value, transcript, anchors, now);
  }
}
