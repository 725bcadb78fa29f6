/** The MSO revocation list: a Status List Token in CWT format, signed and verified. */
module StatusListCwt {
  import opened Wrappers
  import opened Cose
  import opened Mdoc
  import Jws
  import X509

  const LABEL_TYP := Integer(16)
  const STATUS_LIST_CWT_TYPE: string := "application/statuslist+cwt"
  const CWT_SUB := Integer(2)
  const CWT_EXP := Integer(4)
  const CWT_IAT := Integer(6)
  const CWT_STATUS_LIST := Integer(65533)
  const CWT_TTL := Integer(65534)

  datatype StatusList = StatusList(uri: string, bits: nat, lst: ByteString, iat: int, exp: int, ttl: Option<nat>,
                                   x5chain: seq<ByteString>)

  /** Seconds the clock library can represent. */
  predicate Representable(secs: int) {
    -8_334_601_228_800 <= secs <= 8_210_266_876_799
  }

  function Timestamp(at: int): int {
    at / NANOS
  }

  function CwtClaims(list: StatusList): seq<(Value, Value)> {
    [(CWT_SUB, Text(list.uri)), (CWT_IAT, Integer(Timestamp(list.iat))), (CWT_EXP, Integer(Timestamp(list.exp)))]
    + (if list.ttl.Some? then [(CWT_TTL, Integer(list.ttl.value))] else [])
    + [(CWT_STATUS_LIST, Map([(Text("bits"), Integer(list.bits)), (Text("lst"), Bytes(list.lst))]))]
  }

  function TypedHeader(chain: seq<ByteString>): seq<(Value, Value)> {
    [(LABEL_TYP, Text(STATUS_LIST_CWT_TYPE)), (LABEL_X5CHAIN, X5chainValue(chain))]
  }

  /** Sign a Status List Token, its type and chain in the protected header. */
  method SignStatusListCwt(list: StatusList, key: PublicKey) returns (token: ByteString)
    ensures token == SignedList(list, key)
  {
    var claims := [(CWT_SUB, Text(list.uri)), (CWT_IAT, Integer(Timestamp(list.iat))),
                   (CWT_EXP, Integer(Timestamp(list.exp)))];
    if list.ttl.Some? {
      claims := claims + [(CWT_TTL, Integer(list.ttl.value))];
    }
    claims := claims + [(CWT_STATUS_LIST, Map([(Text("bits"), Integer(list.bits)), (Text("lst"), Bytes(list.lst))]))];
    assert claims == CwtClaims(list);
    token := Encoded(Tag(18, Sign(key, Encoded(Map(claims)), TypedHeader(list.x5chain), [])));
  }

  function SignedList(list: StatusList, key: PublicKey): ByteString {
    Encoded(Tag(18, Sign(key, Encoded(Map(CwtClaims(list))), TypedHeader(list.x5chain), [])))
  }

  datatype VerifiedStatusList = VerifiedStatusList(uri: string, bits: nat, lst: ByteString, exp: int)

  function Claim(claims: Value, key: Value): Result<Value, MdocError> {
    match Lookup(claims, key) case Some(v) => Ok(v) case None => Err(Malformed)
  }

  function ReadClaims(claims: Value, now: int): Result<VerifiedStatusList, MdocError> {
    var exp :- Claim(claims, CWT_EXP);
    if !exp.Integer? || !Representable(exp.i) then Err(Malformed)
    else if now > exp.i * NANOS then Err(Validity)
    else
      var list :- Claim(claims, CWT_STATUS_LIST);
      var sub :- Claim(claims, CWT_SUB);
      if !sub.Text? then Err(Malformed)
      else
        var bits :- Require(list, "bits");
        if !bits.Integer? || bits.i < 0 || bits.i > 255 then Err(Malformed)
        else
          var lst :- Require(list, "lst");
          if !lst.Bytes? then Err(Malformed) else Ok(VerifiedStatusList(sub.s, bits.i, lst.bytes, exp.i * NANOS))
  }

  /** Verify a Status List Token against trust anchors. */
  function VerifyStatusListCwt(lib: Library, token: ByteString, anchors: seq<ByteString>, now: int)
    : Result<VerifiedStatusList, MdocError>
  {
    match DecodeItem(lib.codec, token)
    case None => Err(CoseFailure)
    case Some(v) =>
      var sign1 :- ReadSign1(lib, v);
      if Find(sign1.protectedHeader.rest, LABEL_TYP) != Some(Text(STATUS_LIST_CWT_TYPE)) then Err(Malformed)
      else match X5chain(sign1.protectedHeader)
        case None => Err(CoseFailure)
        case Some(chain) =>
          match X509.ValidateChain(lib.certs, chain, anchors, now)
          case Err(_) => Err(Untrusted)
          case Ok(key) =>
            if !Verify(lib.codec, sign1, key) then Err(IssuerSignature)
            else
              var claims :- Decoded(lib, sign1.payload.value);
              ReadClaims(claims, now)
  }

  // ---- Round trip --------------------------------------------------------------------------

  lemma TypedHeaderReads(c: Codec, key: PublicKey, chain: seq<ByteString>)
    ensures ReadProtected(c, ProtectedFor(key, TypedHeader(chain)))
            == Some(Header(Some(AlgorithmId(AlgorithmOf(key))), TypedHeader(chain)))
  {
    hide Find, WithoutLabel, TypedHeader, DistinctLabels, AlgorithmId;
    var entries := [(LABEL_ALG, AlgorithmId(AlgorithmOf(key)))] + TypedHeader(chain);
    TypedLabels(AlgorithmId(AlgorithmOf(key)), chain);
    AlgorithmIsLabel(AlgorithmOf(key));
    FindAt(entries, 0);
    assert entries[1..] == TypedHeader(chain);
    NoAlgorithm(chain);
    LabelDropped(entries);
  }

  lemma TypedLabels(alg: Value, chain: seq<ByteString>)
    ensures DistinctLabels([(LABEL_ALG, alg)] + TypedHeader(chain))
  {
    hide X5chainValue;
  }

  lemma AlgorithmIsLabel(alg: Jws.Algorithm)
    ensures IsLabel(AlgorithmId(alg))
  {
  }

  lemma LabelDropped(entries: seq<(Value, Value)>)
    requires entries != [] && entries[0].0 == LABEL_ALG
    ensures WithoutLabel(entries, LABEL_ALG) == WithoutLabel(entries[1..], LABEL_ALG)
  {
  }

  lemma NoAlgorithm(chain: seq<ByteString>)
    ensures WithoutLabel(TypedHeader(chain), LABEL_ALG) == TypedHeader(chain)
  {
    hide X5chainValue;
    var entries := TypedHeader(chain);
    assert entries[1..] == [entries[1]] && entries[1..][1..] == [];
    assert WithoutLabel([], LABEL_ALG) == [];
    assert WithoutLabel(entries[1..], LABEL_ALG) == [entries[1]] + [];
    assert [entries[1]] + [] == [entries[1]];
    assert WithoutLabel(entries, LABEL_ALG) == [entries[0]] + [entries[1]];
  }

  lemma TypedHeaderFields(chain: seq<ByteString>)
    ensures Find(TypedHeader(chain), LABEL_TYP) == Some(Text(STATUS_LIST_CWT_TYPE))
    ensures forall alg :: X5chain(Header(alg, TypedHeader(chain))) == if chain == [] then None else Some(chain)
  {
    hide Find, Certificates, ReadCertificates;
    FindAt(TypedHeader(chain), 0);
    FindAt(TypedHeader(chain), 1);
    CertificatesRead(chain);
    if |chain| == 1 {
      assert [chain[0]] == chain;
    }
  }

  lemma ClaimsRead(list: StatusList)
    ensures var claims := Map(CwtClaims(list));
            && Claim(claims, CWT_SUB) == Ok(Text(list.uri))
            && Claim(claims, CWT_EXP) == Ok(Integer(Timestamp(list.exp)))
            && Claim(claims, CWT_STATUS_LIST) == Ok(Map([(Text("bits"), Integer(list.bits)),
                                                         (Text("lst"), Bytes(list.lst))]))
  {
    hide Find, Timestamp;
    var entries := CwtClaims(list);
    FindAt(entries, 0);
    FindAt(entries, 2);
    FindAt(entries, |entries| - 1);
  }

  /** The claims of a token under the labels the format gives them: the list's URI, when the token was
      issued and expires in whole seconds, for how long it may be kept if that is said, and the list. */
  lemma TokenClaims(list: StatusList)
    ensures var claims := Map(CwtClaims(list));
            && Lookup(claims, Integer(2)) == Some(Text(list.uri))
            && Lookup(claims, Integer(6)) == Some(Integer(list.iat / NANOS))
            && Lookup(claims, Integer(4)) == Some(Integer(list.exp / NANOS))
            && Lookup(claims, Integer(65534)) == (if list.ttl.Some? then Some(Integer(list.ttl.value)) else None)
            && Lookup(claims, Integer(65533)).Some?
            && Get(Lookup(claims, Integer(65533)).value, "bits") == Some(Integer(list.bits))
            && Get(Lookup(claims, Integer(65533)).value, "lst") == Some(Bytes(list.lst))
  {
    hide Find, Get;
    var entries := CwtClaims(list);
    FindAt(entries, 0);
    FindAt(entries, 1);
    FindAt(entries, 2);
    FindAt(entries, |entries| - 1);
    if list.ttl.Some? {
      FindAt(entries, 3);
    }
    ListMembers(list);
  }

  lemma ListMembers(list: StatusList)
    ensures var v := Map([(Text("bits"), Integer(list.bits)), (Text("lst"), Bytes(list.lst))]);
            Get(v, "bits") == Some(Integer(list.bits)) && Get(v, "lst") == Some(Bytes(list.lst))
  {
    hide Find;
    var inner := [(Text("bits"), Integer(list.bits)), (Text("lst"), Bytes(list.lst))];
    assert "bits"[0] != "lst"[0];
    FindAt(inner, 0);
    FindAt(inner, 1);
  }

  lemma ListRead(list: StatusList, now: int)
    requires list.bits < 256 && Representable(Timestamp(list.exp))
    ensures ReadClaims(Map(CwtClaims(list)), now)
         == if now > Timestamp(list.exp) * NANOS then Err(Validity)
            else Ok(VerifiedStatusList(list.uri, list.bits, list.lst, Timestamp(list.exp) * NANOS))
  {
    hide Find, CwtClaims, Timestamp, Claim;
    ClaimsRead(list);
    var inner := [(Text("bits"), Integer(list.bits)), (Text("lst"), Bytes(list.lst))];
    assert "bits"[0] != "lst"[0];
    FindAt(inner, 0);
    FindAt(inner, 1);
  }

  /** A signed list verifies iff its chain is trusted now for the key that signed it and it has not
      expired; the URI, bit width and bytes come back, the expiry in whole seconds. */
  lemma StatusListRoundTrip(lib: Library, list: StatusList, key: PublicKey, anchors: seq<ByteString>, now: int)
    requires list.bits < 256 && Representable(Timestamp(list.exp))
    ensures var r := VerifyStatusListCwt(lib, SignedList(list, key), anchors, now);
            var trusted := X509.ValidateChain(lib.certs, list.x5chain, anchors, now);
            && (r.Ok? <==> trusted.Ok? && KeyOf(lib.codec, trusted.value) == Some(key)
                           && now <= Timestamp(list.exp) * NANOS)
            && (r.Ok? ==> r == Ok(VerifiedStatusList(list.uri, list.bits, list.lst, Timestamp(list.exp) * NANOS)))
  {
    hide ReadProtected, ProtectedFor, TypedHeader, X5chain, Find, ReadClaims, CwtClaims, KeyOf, Timestamp,
         Representable;
    TypedHeaderReads(lib.codec, key, list.x5chain);
    TypedHeaderFields(list.x5chain);
    EmptyHeader();
    ListRead(list, now);
    EmptyChainUntrusted(lib, anchors, now);
    if X509.ValidateChain(lib.certs, list.x5chain, anchors, now).Ok? {
      KeyFixesAlgorithm(lib.codec, X509.ValidateChain(lib.certs, list.x5chain, anchors, now).value, key);
    }
  }

  lemma EmptyChainUntrusted(lib: Library, anchors: seq<ByteString>, now: int)
    ensures X509.ValidateChain(lib.certs, [], anchors, now).Err?
  {
  }

  lemma KeyFixesAlgorithm(c: Codec, jwk: Jws.Jwk, key: PublicKey)
    ensures KeyOf(c, jwk) == Some(key) ==> Jws.AlgorithmForJwk(jwk) == Some(AlgorithmOf(key))
  {
  }

  /** The issuer's key signs mdocs and status lists; a signed MSO is never taken for a status list. */
  lemma MsoIsNoStatusList(lib: Library, key: PublicKey, payload: ByteString, chain: seq<ByteString>,
                          anchors: seq<ByteString>, now: int)
    ensures VerifyStatusListCwt(lib, Encoded(Sign(key, payload, [], ChainHeader(chain))), anchors, now)
            == Err(Malformed)
  {
    hide FromValue, Sign, X5chain;
    SignedReads(lib.codec, key, payload, chain);
  }

  // ---- Any token ------------------------------------------------------------------------------

  /** The claims are a list's: its URI, an expiry that can be told and is not past, a width of at most 255
      and the list's bytes. */
  ghost predicate ListClaims(claims: Value, now: int, list: VerifiedStatusList) {
    && Lookup(claims, Integer(2)) == Some(Text(list.uri))
    && Lookup(claims, Integer(4)) == Some(Integer(list.exp / NANOS)) && list.exp % NANOS == 0
    && Representable(list.exp / NANOS) && now <= list.exp
    && Lookup(claims, Integer(65533)).Some?
    && var l := Lookup(claims, Integer(65533)).value;
    Get(l, "bits") == Some(Integer(list.bits)) && list.bits <= 255 && Get(l, "lst") == Some(Bytes(list.lst))
  }

  lemma ClaimsIff(claims: Value, now: int, list: VerifiedStatusList)
    ensures ReadClaims(claims, now) == Ok(list) <==> ListClaims(claims, now, list)
  {
    hide Find, Representable;
  }

  /** Any bytes are accepted as a status list iff they are a COSE_Sign1 typed as one in its protected header,
      signed by the leaf of the trusted chain there, over such claims. */
  ghost predicate AcceptsList(lib: Library, token: ByteString, anchors: seq<ByteString>, now: int,
                              list: VerifiedStatusList, sign1: Sign1, chain: seq<ByteString>) {
    && DecodeItem(lib.codec, token).Some?
    && FromValue(lib.codec, DecodeItem(lib.codec, token).value) == Some(sign1)
    && Find(sign1.protectedHeader.rest, Integer(16)) == Some(Text("application/statuslist+cwt"))
    && X5chain(sign1.protectedHeader) == Some(chain) && X509.ValidateChain(lib.certs, chain, anchors, now).Ok?
    && sign1.payload.Some?
    && SignedOver(lib.codec, sign1, sign1.payload.value, X509.ValidateChain(lib.certs, chain, anchors, now).value)
    && DecodeItem(lib.codec, sign1.payload.value).Some?
    && ListClaims(DecodeItem(lib.codec, sign1.payload.value).value, now, list)
  }

  lemma TokenIff(lib: Library, token: ByteString, anchors: seq<ByteString>, now: int, list: VerifiedStatusList)
    ensures VerifyStatusListCwt(lib, token, anchors, now) == Ok(list) <==>
            exists sign1, chain :: AcceptsList(lib, token, anchors, now, list, sign1, chain)
  {
    hide Find, FromValue, X5chain, X509.ValidateChain, ReadClaims, ListClaims, SignedOver, Verify;
    var v := DecodeItem(lib.codec, token);
    if v.Some? && FromValue(lib.codec, v.value).Some? {
      var sign1 := FromValue(lib.codec, v.value).value;
      forall key ensures Verify(lib.codec, sign1, key) <==>
                         sign1.payload.Some? && SignedOver(lib.codec, sign1, sign1.payload.value, key) {
        VerifiesIff(lib.codec, sign1, Raw([]), key);
      }
      if sign1.payload.Some? && DecodeItem(lib.codec, sign1.payload.value).Some? {
        ClaimsIff(DecodeItem(lib.codec, sign1.payload.value).value, now, list);
      }
      if X5chain(sign1.protectedHeader).Some? {
        assert VerifyStatusListCwt(lib, token, anchors, now) == Ok(list) <==>
               AcceptsList(lib, token, anchors, now, list, sign1, X5chain(sign1.protectedHeader).value);
      }
    }
  }
}
