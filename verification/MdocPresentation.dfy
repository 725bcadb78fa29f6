/** Presenting an issued mdoc and verifying the presentation: exactly what was disclosed comes out. */
module MdocPresentation {
  import opened Wrappers
  import opened Cose
  import opened Mdoc
  import opened MdocTheorems
  import Jws
  import X509

  type Disclosed = seq<(string, string)>

  ghost predicate DistinctIdentifiers(es: seq<Element>) {
    forall i, j :: 0 <= i < j < |es| ==> es[i].identifier != es[j].identifier
  }

  /** The request and what was drawn for it, as issuance leaves them, with no identifier twice in a namespace. */
  ghost predicate WellIssued(req: IssueRequest, draws: seq<seq<Draw>>) {
    && Fits(req.namespaces, draws) && DistinctNames(req.namespaces)
    && forall i :: 0 <= i < |draws| ==> DistinctIds(draws[i]) && DistinctIdentifiers(req.namespaces[i].elements)
  }

  // ---- What was disclosed ----------------------------------------------------------------

  function Shown(lib: Library, name: string, es: seq<Element>, disclose: Disclosed): map<string, Jws.Json> {
    if es == [] then map[]
    else (if (name, es[0].identifier) in disclose then map[es[0].identifier := lib.toJson(es[0].value)] else map[])
         + Shown(lib, name, es[1..], disclose)
  }

  function Restrict(lib: Library, namespaces: seq<Namespace>, disclose: Disclosed): Claims {
    if namespaces == [] then map[]
    else
      var shown := Shown(lib, namespaces[0].name, namespaces[0].elements, disclose);
      (if shown == map[] then map[] else map[namespaces[0].name := shown]) + Restrict(lib, namespaces[1..], disclose)
  }

  lemma {:induction false} ShownMeans(lib: Library, name: string, es: seq<Element>, disclose: Disclosed)
    requires DistinctIdentifiers(es)
    ensures forall id :: id in Shown(lib, name, es, disclose) ==>
              (name, id) in disclose && exists j :: 0 <= j < |es| && es[j].identifier == id
    ensures forall j :: 0 <= j < |es| && (name, es[j].identifier) in disclose ==>
              es[j].identifier in Shown(lib, name, es, disclose)
              && Shown(lib, name, es, disclose)[es[j].identifier] == lib.toJson(es[j].value)
  {
    if es != [] {
      ShownMeans(lib, name, es[1..], disclose);
      forall id | id in Shown(lib, name, es[1..], disclose) ensures exists j :: 0 <= j < |es|
                                                                                && es[j].identifier == id {
        var j :| 0 <= j < |es| - 1 && es[1..][j].identifier == id;
        assert es[j + 1].identifier == id;
      }
      forall j | 0 <= j < |es| && (name, es[j].identifier) in disclose
        ensures es[j].identifier in Shown(lib, name, es, disclose)
                && Shown(lib, name, es, disclose)[es[j].identifier] == lib.toJson(es[j].value)
      {
        if j > 0 {
          assert es[1..][j - 1] == es[j];
        }
      }
    }
  }

  lemma {:induction false} RestrictNames(lib: Library, namespaces: seq<Namespace>, disclose: Disclosed, name: string)
    requires name in Restrict(lib, namespaces, disclose)
    ensures exists i :: 0 <= i < |namespaces| && namespaces[i].name == name
  {
    hide Shown;
    if namespaces[0].name != name {
      RestrictNames(lib, namespaces[1..], disclose, name);
      var i :| 0 <= i < |namespaces| - 1 && namespaces[1..][i].name == name;
      assert namespaces[i + 1].name == name;
    }
  }

  /** The disclosed claims of a namespace: present iff something of it was disclosed, and then the
      disclosed elements. */
  lemma {:induction false} RestrictMeans(lib: Library, namespaces: seq<Namespace>, disclose: Disclosed, k: nat)
    requires DistinctNames(namespaces) && k < |namespaces|
    ensures var shown := Shown(lib, namespaces[k].name, namespaces[k].elements, disclose);
            && (namespaces[k].name in Restrict(lib, namespaces, disclose) <==> shown != map[])
            && (shown != map[] ==> Restrict(lib, namespaces, disclose)[namespaces[k].name] == shown)
  {
    hide Shown;
    if k > 0 {
      assert namespaces[1..][k - 1] == namespaces[k];
      RestrictMeans(lib, namespaces[1..], disclose, k - 1);
    } else if namespaces[0].name in Restrict(lib, namespaces[1..], disclose) {
      RestrictNames(lib, namespaces[1..], disclose, namespaces[0].name);
      assert false;
    }
  }

  // ---- Presenting keeps the disclosed items, and they verify ----------------------------------

  lemma KeptIffDisclosed(lib: Library, name: string, disclose: Disclosed, e: Element, d: Draw)
    ensures Kept(lib, name, disclose, ItemBytes(e, d)) <==> (name, e.identifier) in disclose
  {
    hide Unembed, Get, ItemBytes, SignedItem, RequireText;
    ItemReads(lib, e, d);
  }

  lemma KeptFirst(lib: Library, name: string, disclose: Disclosed, items: seq<Value>)
    requires items != []
    ensures KeptOf(lib, name, disclose, items)
         == if Kept(lib, name, disclose, items[0]) then [items[0]] + KeptOf(lib, name, disclose, items[1..])
            else KeptOf(lib, name, disclose, items[1..])
  {
  }

  lemma ShownFirst(lib: Library, name: string, es: seq<Element>, disclose: Disclosed)
    requires es != []
    ensures Shown(lib, name, es, disclose)
         == if (name, es[0].identifier) in disclose
            then map[es[0].identifier := lib.toJson(es[0].value)] + Shown(lib, name, es[1..], disclose)
            else Shown(lib, name, es[1..], disclose)
  {
  }

  lemma CheckFirstItem(lib: Library, digests: Value, item: Value, e: Element, rest: seq<Value>,
                       elements: map<string, Jws.Json>)
    requires CheckItem(lib, digests, item) == Ok(e) && e.identifier !in elements
    ensures CheckItems(lib, digests, [item] + rest, elements)
         == CheckItems(lib, digests, rest, elements[e.identifier := lib.toJson(e.value)])
  {
  }

  lemma NothingKept(lib: Library, name: string, disclose: Disclosed, digests: Value, elements: map<string, Jws.Json>)
    ensures CheckItems(lib, digests, KeptOf(lib, name, disclose, []), elements)
            == Ok(elements + Shown(lib, name, [], disclose))
    ensures KeptOf(lib, name, disclose, []) == [] && Shown(lib, name, [], disclose) == map[]
  {
    assert elements + map[] == elements;
  }

  /** From element `k` on, what is kept verifies against the whole namespace's digests. */
  lemma {:induction false} KeptVerify(lib: Library, name: string, disclose: Disclosed, es: seq<Element>, ds: seq<Draw>,
                                      k: nat, elements: map<string, Jws.Json>)
    requires |es| == |ds| && k <= |es| && DistinctIds(ds) && DistinctIdentifiers(es)
    requires forall j :: k <= j < |es| ==> es[j].identifier !in elements
    ensures CheckItems(lib, Map(Digests(es, ds)), KeptOf(lib, name, disclose, Items(es, ds)[k..]), elements)
         == Ok(elements + Shown(lib, name, es[k..], disclose))
    ensures KeptOf(lib, name, disclose, Items(es, ds)[k..]) == [] <==> Shown(lib, name, es[k..], disclose) == map[]
    decreases |es| - k
  {
    hide DistinctIds, Digests, Kept, KeptOf, CheckItem, CheckItems, Shown, ItemBytes;
    var items := Items(es, ds);
    if k == |es| {
      assert items[k..] == [] && es[k..] == [];
      NothingKept(lib, name, disclose, Map(Digests(es, ds)), elements);
    } else {
      KeptIffDisclosed(lib, name, disclose, es[k], ds[k]);
      IssuedItemAccepted(lib, es, ds, k);
      assert items[k..][1..] == items[k + 1..] && es[k..][1..] == es[k + 1..];
      KeptFirst(lib, name, disclose, items[k..]);
      ShownFirst(lib, name, es[k..], disclose);
      if (name, es[k].identifier) in disclose {
        var id, json := es[k].identifier, lib.toJson(es[k].value);
        var rest := Shown(lib, name, es[k + 1..], disclose);
        CheckFirstItem(lib, Map(Digests(es, ds)), items[k], es[k], KeptOf(lib, name, disclose, items[k + 1..]),
                       elements);
        KeptVerify(lib, name, disclose, es, ds, k + 1, elements[id := json]);
        ShiftMap(elements, id, json, rest);
        EntryStays(id, json, rest);
      } else {
        KeptVerify(lib, name, disclose, es, ds, k + 1, elements);
      }
    }
  }

  lemma ShiftMap<V>(a: map<string, V>, id: string, v: V, rest: map<string, V>)
    ensures a[id := v] + rest == a + (map[id := v] + rest)
  {
  }

  lemma EntryStays(id: string, v: Jws.Json, rest: map<string, Jws.Json>)
    ensures map[id := v] + rest != map[]
  {
    assert id in map[id := v] + rest;
  }

  lemma ValueDigestsFound(namespaces: seq<Namespace>, draws: seq<seq<Draw>>, k: nat)
    requires Fits(namespaces, draws) && DistinctNames(namespaces) && k < |namespaces|
    ensures Get(Map(ValueDigests(namespaces, draws)), namespaces[k].name)
            == Some(Map(Digests(namespaces[k].elements, draws[k])))
  {
    hide Find, Digests;
    FindAt(ValueDigests(namespaces, draws), k);
  }

  /** What is kept of one namespace verifies to what was disclosed of it. */
  lemma KeptOfNamespace(lib: Library, req: IssueRequest, draws: seq<seq<Draw>>, disclose: Disclosed, k: nat)
    requires WellIssued(req, draws) && k < |req.namespaces|
    ensures var ns := req.namespaces[k];
            var kept := KeptItems(lib, NameSpaces(req.namespaces, draws)[k], disclose);
            var shown := Shown(lib, ns.name, ns.elements, disclose);
            && (kept == [] <==> shown == map[])
            && CheckItems(lib, Map(Digests(ns.elements, draws[k])), kept, map[]) == Ok(shown)
  {
    hide DistinctNames, Digests, Items, CheckItems, KeptOf, Shown;
    var es, ds := req.namespaces[k].elements, draws[k];
    KeptVerify(lib, req.namespaces[k].name, disclose, es, ds, 0, map[]);
    assert Items(es, ds)[0..] == Items(es, ds) && es[0..] == es;
    var shown := Shown(lib, req.namespaces[k].name, es, disclose);
    assert map[] + shown == shown;
  }

  lemma RevealedFirst(lib: Library, spaces: seq<(Value, Value)>, disclose: Disclosed)
    requires spaces != []
    ensures var kept := KeptItems(lib, spaces[0], disclose);
            var rest := Revealed(lib, spaces[1..], disclose);
            Revealed(lib, spaces, disclose) == if kept == [] then rest else [(spaces[0].0, Array(kept))] + rest
  {
  }

  lemma CheckFirst(lib: Library, valueDigests: Value, name: string, digests: Value, items: seq<Value>,
                   shown: map<string, Jws.Json>,
                   rest: seq<(Value, Value)>, claims: Claims)
    requires Get(valueDigests, name) == Some(digests) && name !in claims
    requires CheckItems(lib, digests, items, map[]) == Ok(shown)
    ensures CheckNameSpaces(lib, valueDigests, [(Text(name), Array(items))] + rest, claims)
         == CheckNameSpaces(lib, valueDigests, rest, claims[name := shown])
  {
  }

  /** From namespace `k` on, what is revealed verifies and adds exactly the disclosed claims. */
  lemma {:induction false} RevealedVerify(lib: Library, req: IssueRequest, draws: seq<seq<Draw>>, disclose: Disclosed,
                                          k: nat, claims: Claims)
    requires WellIssued(req, draws) && k <= |req.namespaces|
    requires forall j :: k <= j < |req.namespaces| ==> req.namespaces[j].name !in claims
    ensures CheckNameSpaces(lib, Map(ValueDigests(req.namespaces, draws)),
                            Revealed(lib, NameSpaces(req.namespaces, draws)[k..], disclose), claims)
         == Ok(claims + Restrict(lib, req.namespaces[k..], disclose))
    decreases |req.namespaces| - k
  {
    hide DistinctIds, DistinctIdentifiers, ValueDigests, Digests, Items, CheckItems, KeptItems, Shown, Get,
         CheckNameSpaces, Revealed;
    var namespaces := req.namespaces;
    var spaces := NameSpaces(namespaces, draws);
    if k == |namespaces| {
      assert spaces[k..] == [] && namespaces[k..] == [];
      NothingRevealed(lib, Map(ValueDigests(namespaces, draws)), disclose, claims);
    } else {
      var ns := namespaces[k];
      assert spaces[k..][1..] == spaces[k + 1..] && namespaces[k..][1..] == namespaces[k + 1..];
      assert spaces[k] == (Text(ns.name), Array(Items(ns.elements, draws[k])));
      ValueDigestsFound(namespaces, draws, k);
      KeptOfNamespace(lib, req, draws, disclose, k);
      var kept := KeptItems(lib, spaces[k], disclose);
      var shown := Shown(lib, ns.name, ns.elements, disclose);
      var rest := Restrict(lib, namespaces[k + 1..], disclose);
      var revealed := Revealed(lib, spaces[k + 1..], disclose);
      RevealedFirst(lib, spaces[k..], disclose);
      if kept == [] {
        RevealedVerify(lib, req, draws, disclose, k + 1, claims);
        assert map[] + rest == rest;
      } else {
        CheckFirst(lib, Map(ValueDigests(namespaces, draws)), ns.name, Map(Digests(ns.elements, draws[k])), kept, shown,
                   revealed, claims);
        RevealedVerify(lib, req, draws, disclose, k + 1, claims[ns.name := shown]);
        ShiftMap(claims, ns.name, shown, rest);
      }
    }
  }

  lemma NothingRevealed(lib: Library, valueDigests: Value, disclose: Disclosed, claims: Claims)
    ensures CheckNameSpaces(lib, valueDigests, Revealed(lib, [], disclose), claims)
            == Ok(claims + Restrict(lib, [], disclose))
  {
    assert claims + map[] == claims;
  }

  // ---- The issued document --------------------------------------------------------------------

  lemma IssuedFields(nameSpaces: seq<(Value, Value)>, issuerAuth: Value)
    ensures Get(IssuerSignedValue(nameSpaces, issuerAuth), "nameSpaces") == Some(Map(nameSpaces))
    ensures Get(IssuerSignedValue(nameSpaces, issuerAuth), "issuerAuth") == Some(issuerAuth)
  {
    hide Find;
    var entries := IssuerSignedValue(nameSpaces, issuerAuth).entries;
    assert "nameSpaces"[0] != "issuerAuth"[0];
    FindAt(entries, 0);
    FindAt(entries, 1);
  }

  /** What a holder presents of an issued mdoc. */
  lemma PresentOf(lib: Library, req: IssueRequest, draws: seq<seq<Draw>>, key: PublicKey, disclose: Disclosed,
                  transcript: Value, device: PublicKey)
    requires Issuable(req) && Fits(req.namespaces, draws)
    ensures Present(lib, Issued(lib, req, key, draws), disclose, transcript, device)
         == Ok(Encoded(DeviceResponse(req.docType, Revealed(lib, NameSpaces(req.namespaces, draws), disclose),
                                      IssuerAuth(lib, req, key, draws), transcript, device)))
  {
    hide Get, DeviceResponse, Revealed, NameSpaces, ValueDigests, MsoEntries, FromValue, Sign, ReadMso,
         DeviceAuthenticationBytes;
    IssuedFields(NameSpaces(req.namespaces, draws), IssuerAuth(lib, req, key, draws));
    SignedReads(lib.codec, key, Payload(lib, req, draws), req.x5chain);
    MsoFields(lib, req, draws);
  }

  /** The signer's chain is trusted now and was when the MSO was signed, for the key that signed it, and
      the MSO is in its period. */
  ghost predicate TrustedNow(lib: Library, req: IssueRequest, key: PublicKey, anchors: seq<ByteString>, now: int) {
    var trusted := X509.ValidateChain(lib.certs, req.x5chain, anchors, now);
    && trusted.Ok? && KeyOf(lib.codec, trusted.value) == Some(key)
    && Period(req).validFrom <= now <= Period(req).validUntil
    && X509.ValidateChain(lib.certs, req.x5chain, anchors, Period(req).signed).Ok?
  }

  lemma OwnSignatureVerifies(lib: Library, key: PublicKey, payload: ByteString, chain: seq<ByteString>, jwk: Jws.Jwk)
    ensures Verify(lib.codec, ReadBack(key, payload, chain), jwk) <==> KeyOf(lib.codec, jwk) == Some(key)
  {
  }

  /** Step 1 on an issued mdoc, whatever is left in it of its elements. */
  lemma IssuedAuthenticates(lib: Library, req: IssueRequest, draws: seq<seq<Draw>>, key: PublicKey,
                            nameSpaces: seq<(Value, Value)>,
                            anchors: seq<ByteString>, now: int)
    requires Issuable(req) && Fits(req.namespaces, draws)
    ensures var trusted := X509.ValidateChain(lib.certs, req.x5chain, anchors, now);
            var auth := Authenticate(lib, IssuerSignedValue(nameSpaces, IssuerAuth(lib, req, key, draws)), anchors,
                                     now);
            && (auth.Ok? <==> trusted.Ok? && KeyOf(lib.codec, trusted.value) == Some(key))
            && (auth.Ok? ==> auth.value.chain == req.x5chain && auth.value.payload == Payload(lib, req, draws))
  {
    hide FromValue, Sign, Verify, KeyOf, Payload, ChainHeader, X5chain, Get, IssuerSignedValue;
    var issuerAuth := IssuerAuth(lib, req, key, draws);
    IssuedFields(nameSpaces, issuerAuth);
    SignedReads(lib.codec, key, Payload(lib, req, draws), req.x5chain);
    X5chainRoundTrip(req.x5chain);
    if X509.ValidateChain(lib.certs, req.x5chain, anchors, now).Ok? {
      OwnSignatureVerifies(lib, key, Payload(lib, req, draws), req.x5chain,
                           X509.ValidateChain(lib.certs, req.x5chain, anchors, now).value);
    }
  }

  /** The mdoc a verifier reads from a presentation of an issued mdoc. */
  function Expected(lib: Library, req: IssueRequest, disclose: Disclosed): VerifiedMdoc
    requires req.x5chain != []
  {
    VerifiedMdoc(req.docType, Restrict(lib, req.namespaces, disclose), PublicPart(req.deviceKey), Period(req),
                 req.status, req.x5chain[0])
  }

  lemma IssuedVerifies(lib: Library, req: IssueRequest, draws: seq<seq<Draw>>, key: PublicKey, disclose: Disclosed,
                       anchors: seq<ByteString>, now: int)
    requires DatesReadBack(lib) && Issuable(req) && Printable(req) && WellIssued(req, draws)
    ensures var v := IssuerSignedValue(Revealed(lib, NameSpaces(req.namespaces, draws), disclose),
                                       IssuerAuth(lib, req, key, draws));
            var verified := VerifyIssuerSigned(lib, v, Some(req.docType), anchors, now);
            && (verified.Ok? <==> TrustedNow(lib, req, key, anchors, now))
            && (verified.Ok? ==> req.x5chain != [] && verified == Ok(Expected(lib, req, disclose)))
  {
    hide Authenticate, ReadMso, CheckValidity, DeviceKeyOf, ParseStatus, MsoOf, Payload, ValueDigests, CheckNameSpaces,
         Restrict,
         NameSpaces, Revealed, IssuerAuth, IssuerSignedValue, KeyOf, Get, DistinctNames, DistinctIds,
         DistinctIdentifiers;
    var revealed := Revealed(lib, NameSpaces(req.namespaces, draws), disclose);
    IssuedAuthenticates(lib, req, draws, key, revealed, anchors, now);
    MsoReads(lib, req, draws, Some(req.docType));
    ValidityReads(lib, req, draws, req.x5chain, anchors, now);
    DeviceKeyReads(lib, req, draws);
    StatusReads(lib, req, draws);
    MsoFields(lib, req, draws);
    IssuedFields(revealed, IssuerAuth(lib, req, key, draws));
    RevealedVerify(lib, req, draws, disclose, 0, map[]);
    assert NameSpaces(req.namespaces, draws)[0..] == NameSpaces(req.namespaces, draws)
           && req.namespaces[0..] == req.namespaces;
    assert map[] + Restrict(lib, req.namespaces, disclose) == Restrict(lib, req.namespaces, disclose);
  }

  // ---- The response -----------------------------------------------------------------------------

  lemma ResponseFields(docType: string, revealed: seq<(Value, Value)>, issuerAuth: Value, transcript: Value,
                       key: PublicKey)
    ensures var v := DeviceResponse(docType, revealed, issuerAuth, transcript, key);
            && DocumentsOf(v).Ok? && |DocumentsOf(v).value| == 1
            && var document := DocumentsOf(v).value[0];
            && RequireText(document, "docType") == Ok(docType)
            && Require(document, "issuerSigned") == Ok(IssuerSignedValue(revealed, issuerAuth))
            && Require(document, "deviceSigned") == Ok(DeviceSigned(docType, transcript, key))
  {
    hide Find, SignDetached, IssuerSignedValue, DeviceAuthenticationBytes, Embed;
    var signed := DeviceSigned(docType, transcript, key);
    var document := Map([(Text("docType"), Text(docType)), (Text("issuerSigned"),
                                                            IssuerSignedValue(revealed, issuerAuth)),
                         (Text("deviceSigned"), signed)]);
    var v := DeviceResponse(docType, revealed, issuerAuth, transcript, key);
    assert v == Map([(Text("version"), Text("1.0")), (Text("documents"), Array([document])),
                     (Text("status"), Integer(0))]);
    TopFields(document);
    DocumentFields(docType, IssuerSignedValue(revealed, issuerAuth), signed);
  }

  lemma TopFields(document: Value)
    ensures DocumentsOf(Map([(Text("version"), Text("1.0")), (Text("documents"), Array([document])),
                             (Text("status"), Integer(0))])) == Ok([document])
  {
    hide Find;
    var entries := [(Text("version"), Text("1.0")), (Text("documents"), Array([document])),
                    (Text("status"), Integer(0))];
    assert "version"[0] != "documents"[0] && "version"[0] != "status"[0] && "documents"[0] != "status"[0];
    FindAt(entries, 0);
    FindAt(entries, 1);
    FindAt(entries, 2);
  }

  lemma DocumentFields(docType: string, issuerSigned: Value, deviceSigned: Value)
    ensures var document := Map([(Text("docType"), Text(docType)), (Text("issuerSigned"), issuerSigned),
                                 (Text("deviceSigned"), deviceSigned)]);
            && RequireText(document, "docType") == Ok(docType)
            && Require(document, "issuerSigned") == Ok(issuerSigned)
            && Require(document, "deviceSigned") == Ok(deviceSigned)
  {
    hide Find;
    var entries := [(Text("docType"), Text(docType)), (Text("issuerSigned"), issuerSigned),
                    (Text("deviceSigned"), deviceSigned)];
    assert |"docType"| == 7 && |"issuerSigned"| == 12 && "issuerSigned"[0] != "deviceSigned"[0];
    FindAt(entries, 0);
    FindAt(entries, 1);
    FindAt(entries, 2);
  }

  function DeviceSigned(docType: string, transcript: Value, key: PublicKey): Value {
    Map([(Text("nameSpaces"), Embed(Map([]))),
         (Text("deviceAuth"), Map([(Text("deviceSignature"),
            SignDetached(key, DeviceAuthenticationBytes(transcript, docType, Embed(Map([])))))]))])
  }

  lemma DeviceSignedFields(lib: Library, docType: string, transcript: Value, key: PublicKey)
    ensures var v := DeviceSigned(docType, transcript, key);
            && Require(v, "nameSpaces") == Ok(Embed(Map([])))
            && Require(v, "deviceAuth").Ok?
            && DeviceSignature(lib, Require(v, "deviceAuth").value)
               == ReadSign1(lib, SignDetached(key, DeviceAuthenticationBytes(transcript, docType, Embed(Map([])))))
  {
    hide Find, SignDetached;
    var v := DeviceSigned(docType, transcript, key);
    assert "nameSpaces"[0] != "deviceAuth"[0];
    FindAt(v.entries, 0);
    FindAt(v.entries, 1);
    FindAt(v.entries[1].1.entries, 0);
  }

  /** Presenting and verifying: accepted iff the chain is trusted for the issuing key, the MSO is in
      its period, the device key is the one issued to, and the verifier's transcript is the one
      signed; then one document comes out, with exactly the disclosed claims. */
  lemma PresentedExactly(lib: Library, req: IssueRequest, draws: seq<seq<Draw>>, key: PublicKey, disclose: Disclosed,
                         presented: Value, expected: Value, device: PublicKey, anchors: seq<ByteString>, now: int)
    requires DatesReadBack(lib) && Issuable(req) && Printable(req) && WellIssued(req, draws)
    ensures var response := Present(lib, Issued(lib, req, key, draws), disclose, presented, device);
            && response.Ok?
            && var verified := VerifyDeviceResponse(lib, response.value, expected, anchors, now);
            && (verified.Ok? <==> TrustedNow(lib, req, key, anchors, now)
                                  && KeyOf(lib.codec, req.deviceKey) == Some(device) && presented == expected)
            && (verified.Ok? ==> req.x5chain != [] && verified == Ok([Expected(lib, req, disclose)]))
  {
    hide Issued, Present, DeviceResponse, DeviceSigned, VerifyIssuerSigned, TrustedNow, IssuerSignedValue, IssuerAuth,
         Revealed, NameSpaces,
         DocumentsOf, Restrict, Require, RequireText, DeviceSignature, DeviceAuthenticationBytes, FromValue,
         SignDetached, VerifyDetached,
         KeyOf, CoseKey, Embed, DistinctNames, DistinctIds, DistinctIdentifiers;
    PresentOf(lib, req, draws, key, disclose, presented, device);
    var revealed := Revealed(lib, NameSpaces(req.namespaces, draws), disclose);
    var issuerAuth := IssuerAuth(lib, req, key, draws);
    ResponseFields(req.docType, revealed, issuerAuth, presented, device);
    IssuedVerifies(lib, req, draws, key, disclose, anchors, now);
    DeviceSignedFields(lib, req.docType, presented, device);
    var names := Embed(Map([]));
    DetachedVerifiesIff(lib.codec, device, DeviceAuthenticationBytes(presented, req.docType, names),
                        DeviceAuthenticationBytes(expected, req.docType, names), PublicPart(req.deviceKey));
    DeviceBytesDiffer(presented, req.docType, names, expected, req.docType, names);
    CoseKeyRoundTrip(lib.codec, req.deviceKey);
    var documents := DocumentsOf(DeviceResponse(req.docType, revealed, issuerAuth, presented, device)).value;
    AllDocumentsVerify(lib, documents, expected, anchors, now);
    var verified := VerifyDocuments(lib, documents, expected, anchors, now);
    if verified.Ok? {
      assert verified.value == [VerifyDocument(lib, documents[0], expected, anchors, now).value];
    }
  }

  /** A presentation made for one OpenID4VP request is accepted for another iff the two have the
      same client, nonce, response key thumbprint and response URI. */
  lemma BoundToRequest(lib: Library, req: IssueRequest, draws: seq<seq<Draw>>, key: PublicKey, disclose: Disclosed,
                       device: PublicKey,
                       anchors: seq<ByteString>, now: int,
                       c1: string, n1: string, t1: Option<ByteString>, u1: string,
                       c2: string, n2: string, t2: Option<ByteString>, u2: string)
    requires DatesReadBack(lib) && Issuable(req) && Printable(req) && WellIssued(req, draws)
    requires TrustedNow(lib, req, key, anchors, now) && KeyOf(lib.codec, req.deviceKey) == Some(device)
    ensures var response := Present(lib, Issued(lib, req, key, draws), disclose, SessionTranscript(c1, n1, t1, u1),
                                    device);
            && response.Ok?
            && (VerifyDeviceResponse(lib, response.value, SessionTranscript(c2, n2, t2, u2), anchors, now).Ok?
                <==> c1 == c2 && n1 == n2 && t1 == t2 && u1 == u2)
  {
    hide Present, Issued, VerifyDeviceResponse, TrustedNow, WellIssued, SessionTranscript, KeyOf;
    TranscriptsDiffer(c1, n1, t1, u1, c2, n2, t2, u2);
    PresentedExactly(lib, req, draws, key, disclose, SessionTranscript(c1, n1, t1, u1),
                     SessionTranscript(c2, n2, t2, u2), device, anchors, now);
  }
}
