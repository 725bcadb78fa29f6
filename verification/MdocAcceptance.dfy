/** Exactly which CBOR is accepted as an mdoc, however it was made, and what is read of it. */
module MdocAcceptance {
  import opened Wrappers
  import opened Cose
  import opened Mdoc
  import Jws
  import X509

  // ---- The issuer's signature ------------------------------------------------------------------

  /** The signer's chain: the one in the unprotected header, or, when that has none, the one in the protected. */
  ghost predicate ChainOf(auth: Sign1, chain: seq<ByteString>) {
    && chain != []
    && (|| X5chain(auth.unprotected) == Some(chain)
        || (X5chain(auth.unprotected) == Some([]) && X5chain(auth.protectedHeader) == Some(chain)))
  }

  /** The structure carries a signature by the leaf of a chain that leads to an anchor, over this payload. */
  ghost predicate SignedBy(lib: Library, v: Value, anchors: seq<ByteString>, now: int, a: Authenticated,
                           auth: Sign1) {
    && Get(v, "issuerAuth").Some? && FromValue(lib.codec, Get(v, "issuerAuth").value) == Some(auth)
    && ChainOf(auth, a.chain)
    && X509.ValidateChain(lib.certs, a.chain, anchors, now).Ok?
    && auth.payload == Some(a.payload) && auth.signature == a.signature
    && SignedOver(lib.codec, auth, a.payload, X509.ValidateChain(lib.certs, a.chain, anchors, now).value)
  }

  lemma AuthenticIff(lib: Library, v: Value, anchors: seq<ByteString>, now: int, a: Authenticated)
    ensures Authenticate(lib, v, anchors, now) == Ok(a) <==> exists auth :: SignedBy(lib, v, anchors, now, a, auth)
  {
    hide FromValue, X509.ValidateChain, SignedOver, Verify, Get, X5chain;
    var issuerAuth := Get(v, "issuerAuth");
    if issuerAuth.Some? && FromValue(lib.codec, issuerAuth.value).Some? {
      var auth := FromValue(lib.codec, issuerAuth.value).value;
      forall key ensures Verify(lib.codec, auth, key) <==>
                         auth.payload.Some? && SignedOver(lib.codec, auth, auth.payload.value, key) {
        VerifiesIff(lib.codec, auth, Raw([]), key);
      }
      assert Authenticate(lib, v, anchors, now) == Ok(a) <==> SignedBy(lib, v, anchors, now, a, auth);
    }
  }

  // ---- What was signed ---------------------------------------------------------------------------

  /** The payload is an embedded security object of version 1.0 with SHA-256 digests, for a document of
      this type, which is the expected one if any is. */
  ghost predicate IsMso(lib: Library, payload: ByteString, expected: Option<string>, mso: Value, docType: string) {
    && DecodeItem(lib.codec, payload).Some?
    && var outer := DecodeItem(lib.codec, payload).value;
    && outer.Tag? && outer.tag == 24 && outer.inner.Bytes? && DecodeItem(lib.codec, outer.inner.bytes) == Some(mso)
    && Get(mso, "version") == Some(Text("1.0")) && Get(mso, "digestAlgorithm") == Some(Text("SHA-256"))
    && Get(mso, "docType") == Some(Text(docType)) && (expected == None || expected == Some(docType))
  }

  lemma MsoIff(lib: Library, payload: ByteString, expected: Option<string>, mso: Value, docType: string)
    ensures ReadMso(lib, payload, expected) == Ok((mso, docType)) <==> IsMso(lib, payload, expected, mso, docType)
  {
    hide Get, DecodeItem;
  }

  /** An RFC 3339 date under a name, as an instant. */
  ghost predicate DateIs(lib: Library, info: Value, field: string, at: int) {
    && Get(info, field).Some?
    && var v := Get(info, field).value;
    v.Tag? && v.tag == 0 && v.inner.Text? && lib.parseDate(v.inner.s) == Some(at)
  }

  ghost predicate PeriodIs(lib: Library, mso: Value, p: ValidityInfo) {
    && Get(mso, "validityInfo").Some?
    && var info := Get(mso, "validityInfo").value;
    DateIs(lib, info, "signed", p.signed) && DateIs(lib, info, "validFrom", p.validFrom)
    && DateIs(lib, info, "validUntil", p.validUntil)
  }

  lemma DateIff(lib: Library, info: Value, field: string, at: int)
    ensures ReadDate(lib, info, field) == Ok(at) <==> DateIs(lib, info, field, at)
  {
    hide Get;
  }

  /** The period is accepted iff it can be read, now is in it, and the chain was good when the object was signed. */
  lemma PeriodIff(lib: Library, mso: Value, chain: seq<ByteString>, anchors: seq<ByteString>, now: int,
                  p: ValidityInfo)
    ensures CheckValidity(lib, mso, chain, anchors, now) == Ok(p) <==>
            && PeriodIs(lib, mso, p) && p.validFrom <= now <= p.validUntil
            && X509.ValidateChain(lib.certs, chain, anchors, p.signed).Ok?
  {
    hide Get, ReadDate, DateIs, X509.ValidateChain;
    if Get(mso, "validityInfo").Some? {
      var info := Get(mso, "validityInfo").value;
      DateIff(lib, info, "signed", p.signed);
      DateIff(lib, info, "validFrom", p.validFrom);
      DateIff(lib, info, "validUntil", p.validUntil);
    }
  }

  /** The status a security object has: none, or an entry of a list by a 64-bit index and a URI. */
  ghost predicate StatusIs(mso: Value, status: Option<StatusRef>) {
    if Get(mso, "status").None? || Get(Get(mso, "status").value, "status_list").None? then status == None
    else
      var list := Get(Get(mso, "status").value, "status_list").value;
      status.Some? && status.value.idx < 0x1_0000_0000_0000_0000
      && Get(list, "idx") == Some(Integer(status.value.idx)) && Get(list, "uri") == Some(Text(status.value.uri))
  }

  lemma StatusIff(mso: Value, status: Option<StatusRef>)
    ensures ParseStatus(mso) == Ok(status) <==> StatusIs(mso, status)
  {
    hide Get;
  }

  // ---- The elements ------------------------------------------------------------------------------

  /** The element is an embedded map whose digest ID leads to the digest of the element's own bytes. */
  ghost predicate IsItem(lib: Library, digests: Value, itemBytes: Value, e: Element, item: Value, id: int) {
    && itemBytes.Tag? && itemBytes.tag == 24 && itemBytes.inner.Bytes?
    && DecodeItem(lib.codec, itemBytes.inner.bytes) == Some(item)
    && Get(item, "elementIdentifier") == Some(Text(e.identifier)) && Get(item, "elementValue") == Some(e.value)
    && Get(item, "digestID") == Some(Integer(id))
    && Lookup(digests, Integer(id)) == Some(Bytes(Digest(Encoded(itemBytes))))
  }

  lemma ItemIff(lib: Library, digests: Value, itemBytes: Value, e: Element)
    ensures CheckItem(lib, digests, itemBytes) == Ok(e) <==>
            exists item, id :: IsItem(lib, digests, itemBytes, e, item, id)
  {
    hide Find, DecodeItem;
    if CheckItem(lib, digests, itemBytes) == Ok(e) {
      var item := DecodeItem(lib.codec, itemBytes.inner.bytes).value;
      assert IsItem(lib, digests, itemBytes, e, item, Get(item, "digestID").value.i);
    }
  }

  /** The elements of a namespace are accepted iff each is and no identifier comes twice; what is read is
      then exactly each one's value, as JSON, under its identifier. */
  lemma {:induction false} ItemsIff(lib: Library, digests: Value, items: seq<Value>, elements: map<string, Jws.Json>)
    ensures var r := CheckItems(lib, digests, items, elements);
            && (r.Ok? <==>
                  && (forall i :: 0 <= i < |items| ==>
                        && CheckItem(lib, digests, items[i]).Ok?
                        && CheckItem(lib, digests, items[i]).value.identifier !in elements)
                  && (forall i, j :: 0 <= i < j < |items| ==>
                        CheckItem(lib, digests, items[i]).value.identifier
                        != CheckItem(lib, digests, items[j]).value.identifier))
            && (r.Ok? ==>
                  && |r.value| == |elements| + |items|
                  && (forall id :: id in elements ==> id in r.value && r.value[id] == elements[id])
                  && forall i :: 0 <= i < |items| ==>
                       var e := CheckItem(lib, digests, items[i]).value;
                       e.identifier in r.value && r.value[e.identifier] == lib.toJson(e.value))
    decreases |items|
  {
    hide CheckItem;
    if items != [] {
      assert forall i :: 0 <= i < |items| - 1 ==> items[1..][i] == items[i + 1];
      var first := CheckItem(lib, digests, items[0]);
      if first.Ok? && first.value.identifier !in elements {
        ItemsIff(lib, digests, items[1..], elements[first.value.identifier := lib.toJson(first.value.value)]);
      }
    }
  }

  /** An `IssuerSigned` structure is accepted as this mdoc iff a trusted chain's leaf signed a security
      object of the expected type, in its period now and under a chain that was good when it was signed;
      then the type, period, status and device key are that object's, the certificate is the leaf's, and
      the claims are those of the elements that hash to its digests, none if none are revealed. */
  ghost predicate Accepts(lib: Library, v: Value, expected: Option<string>, anchors: seq<ByteString>, now: int,
                          m: VerifiedMdoc, a: Authenticated, auth: Sign1, mso: Value) {
    && SignedBy(lib, v, anchors, now, a, auth) && IsMso(lib, a.payload, expected, mso, m.docType)
    && PeriodIs(lib, mso, m.validity) && m.validity.validFrom <= now <= m.validity.validUntil
    && X509.ValidateChain(lib.certs, a.chain, anchors, m.validity.signed).Ok?
    && StatusIs(mso, m.status) && m.signerCertificate == a.chain[0]
    && Get(mso, "deviceKeyInfo").Some? && Get(Get(mso, "deviceKeyInfo").value, "deviceKey").Some?
    && JwkFromCoseKey(lib.codec, Get(Get(mso, "deviceKeyInfo").value, "deviceKey").value) == Some(m.deviceKey)
    && Get(mso, "valueDigests").Some?
    && match Get(v, "nameSpaces")
       case None => m.claims == map[]
       case Some(spaces) =>
         spaces.Map? && CheckNameSpaces(lib, Get(mso, "valueDigests").value, spaces.entries, map[]) == Ok(m.claims)
  }

  lemma IssuerSignedIff(lib: Library, v: Value, expected: Option<string>, anchors: seq<ByteString>, now: int,
                        m: VerifiedMdoc)
    ensures VerifyIssuerSigned(lib, v, expected, anchors, now) == Ok(m) <==>
            exists a, auth, mso :: Accepts(lib, v, expected, anchors, now, m, a, auth, mso)
  {
    hide Get, SignedBy, IsMso, PeriodIs, StatusIs, Authenticate, ReadMso, CheckValidity, ParseStatus,
         CheckNameSpaces, JwkFromCoseKey, X509.ValidateChain;
    if VerifyIssuerSigned(lib, v, expected, anchors, now) == Ok(m) {
      var a := Authenticate(lib, v, anchors, now).value;
      var (mso, docType) := ReadMso(lib, a.payload, expected).value;
      AuthenticIff(lib, v, anchors, now, a);
      MsoIff(lib, a.payload, expected, mso, docType);
      PeriodIff(lib, mso, a.chain, anchors, now, m.validity);
      StatusIff(mso, m.status);
      var auth :| SignedBy(lib, v, anchors, now, a, auth);
      assert Accepts(lib, v, expected, anchors, now, m, a, auth, mso);
    }
    if a, auth, mso :| Accepts(lib, v, expected, anchors, now, m, a, auth, mso) {
      AuthenticIff(lib, v, anchors, now, a);
      MsoIff(lib, a.payload, expected, mso, m.docType);
      PeriodIff(lib, mso, a.chain, anchors, now, m.validity);
      StatusIff(mso, m.status);
    }
  }

  // ---- A document of a response -------------------------------------------------------------------

  /** The document is accepted as this mdoc: it names a type, carries an accepted structure of that type,
      and a signature by the device key over this transcript, that type and the device's own name spaces. */
  ghost predicate AcceptsDocument(lib: Library, document: Value, transcript: Value, anchors: seq<ByteString>, now: int,
                                  m: VerifiedMdoc, signature: Sign1) {
    && Get(document, "docType") == Some(Text(m.docType))
    && Get(document, "issuerSigned").Some?
    && VerifyIssuerSigned(lib, Get(document, "issuerSigned").value, Some(m.docType), anchors, now) == Ok(m)
    && Get(document, "deviceSigned").Some?
    && var signed := Get(document, "deviceSigned").value;
    && Get(signed, "nameSpaces").Some? && Get(signed, "deviceAuth").Some?
    && Get(Get(signed, "deviceAuth").value, "deviceSignature").Some?
    && FromValue(lib.codec, Get(Get(signed, "deviceAuth").value, "deviceSignature").value) == Some(signature)
    && signature.payload.None?
    && SignedOver(lib.codec, signature,
                  Encoded(Tag(24, Bytes(Encoded(Array([Text("DeviceAuthentication"), transcript, Text(m.docType),
                                                       Get(signed, "nameSpaces").value]))))),
                  m.deviceKey)
  }

  /** What the device signs. */
  lemma DeviceBytesAre(transcript: Value, docType: string, names: Value)
    ensures DeviceAuthenticationBytes(transcript, docType, names)
         == Encoded(Tag(24, Bytes(Encoded(Array([Text("DeviceAuthentication"), transcript, Text(docType), names])))))
  {
  }

  lemma DocumentIff(lib: Library, document: Value, transcript: Value, anchors: seq<ByteString>, now: int,
                    m: VerifiedMdoc)
    ensures VerifyDocument(lib, document, transcript, anchors, now) == Ok(m) <==>
            exists signature :: AcceptsDocument(lib, document, transcript, anchors, now, m, signature)
  {
    hide Get, VerifyIssuerSigned, FromValue, SignedOver, VerifyDetached, DeviceAuthenticationBytes, AcceptsDocument;
    TypeIsExpected(lib, document, anchors, now, m);
    if VerifyDocument(lib, document, transcript, anchors, now) == Ok(m) {
      var signed := Get(document, "deviceSigned").value;
      var signature := FromValue(lib.codec, Get(Get(signed, "deviceAuth").value, "deviceSignature").value).value;
      AcceptedDocument(lib, document, transcript, anchors, now, m, signature);
    }
    if signature :| AcceptsDocument(lib, document, transcript, anchors, now, m, signature) {
      AcceptedVerifies(lib, document, transcript, anchors, now, m, signature);
    }
  }

  lemma AcceptedDocument(lib: Library, document: Value, transcript: Value, anchors: seq<ByteString>, now: int,
                         m: VerifiedMdoc, signature: Sign1)
    requires VerifyDocument(lib, document, transcript, anchors, now) == Ok(m)
    requires var signed := Get(document, "deviceSigned");
             && signed.Some? && Get(signed.value, "deviceAuth").Some?
             && Get(Get(signed.value, "deviceAuth").value, "deviceSignature").Some?
             && FromValue(lib.codec, Get(Get(signed.value, "deviceAuth").value, "deviceSignature").value)
                == Some(signature)
    ensures AcceptsDocument(lib, document, transcript, anchors, now, m, signature)
  {
    hide Get, VerifyIssuerSigned, FromValue, SignedOver, VerifyDetached, DeviceAuthenticationBytes;
    TypeIsExpected(lib, document, anchors, now, m);
    var names := Get(Get(document, "deviceSigned").value, "nameSpaces").value;
    DeviceBytesAre(transcript, m.docType, names);
    VerifiesIff(lib.codec, signature, DeviceAuthenticationBytes(transcript, m.docType, names), m.deviceKey);
  }

  lemma AcceptedVerifies(lib: Library, document: Value, transcript: Value, anchors: seq<ByteString>, now: int,
                         m: VerifiedMdoc, signature: Sign1)
    requires AcceptsDocument(lib, document, transcript, anchors, now, m, signature)
    ensures VerifyDocument(lib, document, transcript, anchors, now) == Ok(m)
  {
    hide Get, VerifyIssuerSigned, FromValue, SignedOver, VerifyDetached, DeviceAuthenticationBytes;
    var names := Get(Get(document, "deviceSigned").value, "nameSpaces").value;
    DeviceBytesAre(transcript, m.docType, names);
    VerifiesIff(lib.codec, signature, DeviceAuthenticationBytes(transcript, m.docType, names), m.deviceKey);
  }

  /** What an accepted structure says its type is is the type it was expected to have. */
  lemma TypeIsExpected(lib: Library, document: Value, anchors: seq<ByteString>, now: int, m: VerifiedMdoc)
    ensures forall v, docType ::
              VerifyIssuerSigned(lib, v, Some(docType), anchors, now) == Ok(m) ==> m.docType == docType
  {
    hide Authenticate, CheckValidity, RevealedClaims, DeviceKeyOf, ParseStatus, Get;
  }

  /** A document the device authenticated with a MAC and no signature is refused as unsupported. */
  lemma MacIsUnsupported(lib: Library, document: Value, transcript: Value, anchors: seq<ByteString>, now: int,
                         docType: string, m: VerifiedMdoc)
    requires Get(document, "docType") == Some(Text(docType)) && Get(document, "issuerSigned").Some?
    requires VerifyIssuerSigned(lib, Get(document, "issuerSigned").value, Some(docType), anchors, now) == Ok(m)
    requires Get(document, "deviceSigned").Some?
    requires var signed := Get(document, "deviceSigned").value;
             && Get(signed, "nameSpaces").Some? && Get(signed, "deviceAuth").Some?
             && Get(Get(signed, "deviceAuth").value, "deviceSignature").None?
             && Get(Get(signed, "deviceAuth").value, "deviceMac").Some?
    ensures VerifyDocument(lib, document, transcript, anchors, now) == Err(Unsupported)
  {
    hide Get, VerifyIssuerSigned;
  }
}
