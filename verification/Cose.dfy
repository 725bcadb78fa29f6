/** CBOR values over symbolic byte strings, COSE_Sign1 (RFC 9052) and COSE keys (RFC 9053). */
module Cose {
  import opened Wrappers
  import opened Base64
  import Jws

  // ---- Values -------------------------------------------------------------------

  datatype PublicKey = P256(x: seq<byte>, y: seq<byte>) | Ed25519(x: seq<byte>)

  /** Byte strings by how they were made. Constructors are injective: an encoding stands for one
      value, digests do not collide, and a signature names the key that made it and what it signed
      (`variant` tells apart several signatures over the same bytes). */
  datatype ByteString =
    | Raw(data: seq<byte>)
    | Encoded(value: Value)
    | Digest(of: ByteString)
    | Signature(key: PublicKey, over: ByteString, variant: nat)

  datatype Value =
    | Null
    | Bool(b: bool)
    | Integer(i: int)
    | Float(bits: nat)
    | Bytes(bytes: ByteString)
    | Text(s: string)
    | Array(items: seq<Value>)
    | Map(entries: seq<(Value, Value)>)
    | Tag(tag: nat, inner: Value)

  /** What the code calls and does not define. Nothing is assumed about bytes that no encoder made:
      they may decode to anything, or to nothing. */
  datatype Codec = Codec(
    decodeOther: ByteString -> Option<Value>,
    decodeWholeOther: ByteString -> Option<Value>,
    octets: ByteString -> seq<byte>,
    validKey: PublicKey -> bool)

  /** Decoding what was encoded gives the value back. */
  function DecodeItem(c: Codec, b: ByteString): Option<Value> {
    if b.Encoded? then Some(b.value) else c.decodeOther(b)
  }

  /** The same, refusing bytes left over. */
  function DecodeWhole(c: Codec, b: ByteString): Option<Value> {
    if b.Encoded? then Some(b.value) else c.decodeWholeOther(b)
  }

  /** The first entry under a key. */
  function Find(entries: seq<(Value, Value)>, key: Value): (r: Option<Value>)
    ensures r.Some? ==> exists i :: 0 <= i < |entries| && entries[i] == (key, r.value)
    ensures r.None? ==> forall i :: 0 <= i < |entries| ==> entries[i].0 != key
  {
    if entries == [] then None
    else if entries[0].0 == key then Some(entries[0].1)
    else match Find(entries[1..], key)
      case None => None
      case Some(v) =>
        assert forall i :: 0 <= i < |entries| - 1 ==> entries[1..][i] == entries[i + 1];
        Some(v)
  }

  /** With no key twice, an entry is what its key finds. */
  lemma {:induction false} FindAt(entries: seq<(Value, Value)>, k: nat)
    requires k < |entries|
    requires forall i :: 0 <= i < k ==> entries[i].0 != entries[k].0
    ensures Find(entries, entries[k].0) == Some(entries[k].1)
  {
    if k > 0 {
      FindAt(entries[1..], k - 1);
    }
  }

  function Lookup(container: Value, key: Value): Option<Value> {
    if container.Map? then Find(container.entries, key) else None
  }

  /** A text key of a map. */
  function Get(container: Value, key: string): Option<Value> {
    Lookup(container, Text(key))
  }

  // ---- Keys -----------------------------------------------------------------------

  function DecodeCoordinate(coordinate: Option<string>): Option<seq<byte>> {
    match coordinate case Some(s) => Decode(UrlUnpadded, s) case None => None
  }

  /** The key a JWK denotes, if signatures can be checked under it. */
  function KeyOf(c: Codec, jwk: Jws.Jwk): Option<PublicKey> {
    match Jws.AlgorithmForJwk(jwk)
    case None => None
    case Some(alg) =>
      match DecodeCoordinate(jwk.x)
      case None => None
      case Some(x) =>
        if |x| != 32 then None
        else if alg.ES256? then
          match DecodeCoordinate(jwk.y)
          case None => None
          case Some(y) => if |y| == 32 && c.validKey(P256(x, y)) then Some(P256(x, y)) else None
        else if c.validKey(Ed25519(x)) then Some(Ed25519(x)) else None
  }

  /** A JWK denotes a key iff it has the key's type and curve, its coordinates are the key's, of 32 bytes
      each, and they are a point of the curve. */
  lemma KeyOfIff(c: Codec, jwk: Jws.Jwk, key: PublicKey)
    ensures KeyOf(c, jwk) == Some(key) <==>
            && c.validKey(key) && DecodeCoordinate(jwk.x) == Some(key.x) && |key.x| == 32
            && match key
               case P256(_, y) =>
                 jwk.kty == "EC" && jwk.crv == Some("P-256") && DecodeCoordinate(jwk.y) == Some(y) && |y| == 32
               case Ed25519(_) => jwk.kty == "OKP" && jwk.crv == Some("Ed25519")
  {
    hide DecodeCoordinate;
    assert "EC" != "OKP" && "P-256" != "Ed25519";
  }

  function AlgorithmOf(key: PublicKey): Jws.Algorithm {
    if key.P256? then Jws.ES256 else Jws.EdDSA
  }

  predicate VerifyWithJwk(c: Codec, jwk: Jws.Jwk, over: ByteString, signature: ByteString) {
    signature.Signature? && KeyOf(c, jwk) == Some(signature.key) && signature.over == over
  }

  /** A public JWK as a COSE_Key. */
  function CoseKey(jwk: Jws.Jwk): Option<Value> {
    match (Jws.AlgorithmForJwk(jwk), DecodeCoordinate(jwk.x), DecodeCoordinate(jwk.y))
    case (Some(ES256), Some(x), Some(y)) =>
      Some(Map([(Integer(1), Integer(2)), (Integer(-1), Integer(1)),
                (Integer(-2), Bytes(Raw(x))), (Integer(-3), Bytes(Raw(y)))]))
    case (Some(EdDSA), Some(x), _) =>
      Some(Map([(Integer(1), Integer(1)), (Integer(-1), Integer(6)), (Integer(-2), Bytes(Raw(x)))]))
    case _ => None
  }

  /** An integer entry that fits 64 bits. */
  function FindInt(key: Value, entry: int): Option<int> {
    match Lookup(key, Integer(entry))
    case Some(Integer(i)) => if -0x8000_0000_0000_0000 <= i < 0x8000_0000_0000_0000 then Some(i) else None
    case _ => None
  }

  function Octets(c: Codec, b: ByteString): seq<byte> {
    if b.Raw? then b.data else c.octets(b)
  }

  function Coordinate(c: Codec, key: Value, entry: int): Option<string> {
    match Lookup(key, Integer(entry))
    case Some(Bytes(b)) => Some(Encode(UrlUnpadded, Octets(c, b)))
    case _ => None
  }

  function JwkFromCoseKey(c: Codec, key: Value): Option<Jws.Jwk> {
    if !key.Map? then None
    else match (FindInt(key, 1), FindInt(key, -1))
      case (Some(2), Some(1)) =>
        (match (Coordinate(c, key, -3), Coordinate(c, key, -2))
         case (Some(y), Some(x)) => Some(Jws.Jwk("EC", Some("P-256"), Some(x), Some(y), None))
         case _ => None)
      case (Some(1), Some(6)) =>
        (match Coordinate(c, key, -2)
         case Some(x) => Some(Jws.Jwk("OKP", Some("Ed25519"), Some(x), None, None))
         case None => None)
      case _ => None
  }

  /** What of a JWK a COSE_Key carries. */
  function PublicPart(jwk: Jws.Jwk): Jws.Jwk {
    Jws.Jwk(jwk.kty, jwk.crv, jwk.x, if jwk.kty == "EC" then jwk.y else None, None)
  }

  /** A key survives the trip through COSE up to its private and unused parts, and it is the same
      key to signature checking. The coordinates must decode: that is when the trip starts. */
  lemma CoseKeyRoundTrip(c: Codec, jwk: Jws.Jwk)
    requires CoseKey(jwk).Some?
    ensures JwkFromCoseKey(c, CoseKey(jwk).value) == Some(PublicPart(jwk))
    ensures KeyOf(c, PublicPart(jwk)) == KeyOf(c, jwk)
  {
    hide Encode, Decode, Find;
    EncodeDecode(UrlUnpadded, jwk.x.value);
    var key := CoseKey(jwk).value;
    assert "EC" != "OKP" && "EC" != "P-256";
    FindAt(key.entries, 0);
    FindAt(key.entries, 1);
    FindAt(key.entries, 2);
    if jwk.kty == "EC" {
      EncodeDecode(UrlUnpadded, jwk.y.value);
      FindAt(key.entries, 3);
    }
  }

  /** A JWK has a COSE form iff it is a P-256 key with both coordinates or an Ed25519 key with its one, and
      then the form has the key type, curve and coordinates under the labels COSE gives them. */
  lemma CoseKeyMembers(jwk: Jws.Jwk)
    ensures var x, y := DecodeCoordinate(jwk.x), DecodeCoordinate(jwk.y);
            var ec := jwk.kty == "EC" && jwk.crv == Some("P-256");
            var okp := jwk.kty == "OKP" && jwk.crv == Some("Ed25519");
            && (CoseKey(jwk).Some? <==> (ec && x.Some? && y.Some?) || (okp && x.Some?))
            && (CoseKey(jwk).Some? ==>
                  && Lookup(CoseKey(jwk).value, Integer(1)) == Some(Integer(if ec then 2 else 1))
                  && Lookup(CoseKey(jwk).value, Integer(-1)) == Some(Integer(if ec then 1 else 6))
                  && Lookup(CoseKey(jwk).value, Integer(-2)) == Some(Bytes(Raw(x.value)))
                  && (ec ==> Lookup(CoseKey(jwk).value, Integer(-3)) == Some(Bytes(Raw(y.value)))))
  {
    hide Decode, Find;
    assert "EC" != "OKP" && "P-256" != "Ed25519";
    if CoseKey(jwk).Some? {
      var entries := CoseKey(jwk).value.entries;
      FindAt(entries, 0);
      FindAt(entries, 1);
      FindAt(entries, 2);
      if jwk.kty == "EC" {
        FindAt(entries, 3);
      }
    }
  }

  // ---- COSE_Sign1 --------------------------------------------------------------------

  const LABEL_ALG := Integer(1)
  const LABEL_X5CHAIN := Integer(33)

  function AlgorithmId(alg: Jws.Algorithm): Value {
    match alg case ES256 => Integer(-7) case EdDSA => Integer(-8)
  }

  datatype Header = Header(alg: Option<Value>, rest: seq<(Value, Value)>)

  datatype Sign1 = Sign1(protectedBytes: ByteString, protectedHeader: Header, unprotected: Header,
                         payload: Option<ByteString>, signature: ByteString)

  predicate IsLabel(v: Value) {
    v.Text? || (v.Integer? && -0x8000_0000_0000_0000 <= v.i < 0x8000_0000_0000_0000)
  }

  predicate DistinctLabels(entries: seq<(Value, Value)>) {
    && (forall i :: 0 <= i < |entries| ==> IsLabel(entries[i].0))
    && (forall i, j :: 0 <= i < j < |entries| ==> entries[i].0 != entries[j].0)
  }

  function WithoutLabel(entries: seq<(Value, Value)>, key: Value): seq<(Value, Value)> {
    if entries == [] then []
    else (if entries[0].0 == key then [] else [entries[0]]) + WithoutLabel(entries[1..], key)
  }

  /** A header map: labels are integers or text, none twice, and the algorithm is a label too. */
  function ReadHeader(v: Value): Option<Header> {
    if !v.Map? || !DistinctLabels(v.entries) then None
    else
      var alg := Find(v.entries, LABEL_ALG);
      if alg.Some? && !IsLabel(alg.value) then None
      else Some(Header(alg, WithoutLabel(v.entries, LABEL_ALG)))
  }

  function ReadProtected(c: Codec, b: ByteString): Option<Header> {
    if b == Raw([]) then Some(Header(None, []))
    else match DecodeWhole(c, b) case Some(v) => ReadHeader(v) case None => None
  }

  /** Read a COSE_Sign1, tagged (18) or not. */
  function FromValue(c: Codec, value: Value): Option<Sign1> {
    var v := if value.Tag? && value.tag == 18 then value.inner else value;
    if !v.Array? || |v.items| != 4 || !v.items[0].Bytes? || !v.items[3].Bytes? then None
    else if !v.items[2].Bytes? && !v.items[2].Null? then None
    else match (ReadProtected(c, v.items[0].bytes), ReadHeader(v.items[1]))
      case (Some(p), Some(u)) =>
        Some(Sign1(v.items[0].bytes, p, u, if v.items[2].Bytes? then Some(v.items[2].bytes) else None,
                   v.items[3].bytes))
      case _ => None
  }

  /** A header map reads iff no label comes twice, each is text or a 64-bit integer, and the algorithm's
      label, if there is one, leads to such a value; every other entry is kept as it is, in order. */
  lemma HeaderIff(v: Value)
    ensures ReadHeader(v).Some? <==>
            && v.Map?
            && (forall i :: 0 <= i < |v.entries| ==>
                  || v.entries[i].0.Text?
                  || (v.entries[i].0.Integer? && -0x8000_0000_0000_0000 <= v.entries[i].0.i < 0x8000_0000_0000_0000))
            && (forall i, j :: 0 <= i < j < |v.entries| ==> v.entries[i].0 != v.entries[j].0)
            && (AlgorithmEntry(v).Some? ==>
                  var alg := AlgorithmEntry(v).value;
                  alg.Text? || (alg.Integer? && -0x8000_0000_0000_0000 <= alg.i < 0x8000_0000_0000_0000))
    ensures ReadHeader(v).Some? ==>
              && ReadHeader(v).value.alg == AlgorithmEntry(v)
              && (forall e :: e in ReadHeader(v).value.rest <==> e in v.entries && e.0 != Integer(1))
  {
    hide Find;
    if v.Map? {
      RestKept(v.entries);
    }
  }

  /** The value under the algorithm's label. */
  function AlgorithmEntry(v: Value): Option<Value> {
    Lookup(v, Integer(1))
  }

  lemma {:induction false} RestKept(entries: seq<(Value, Value)>)
    ensures forall e :: e in WithoutLabel(entries, LABEL_ALG) <==> e in entries && e.0 != LABEL_ALG
  {
    if entries != [] {
      RestKept(entries[1..]);
      assert entries == [entries[0]] + entries[1..];
    }
  }

  /** A value reads as a COSE_Sign1 iff, with its tag or without, it is an array of the protected header's
      bytes, the unprotected header, the payload's bytes or nothing, and the signature; no bytes at all
      are an empty protected header. */
  lemma Sign1Iff(c: Codec, value: Value, sign1: Sign1)
    ensures FromValue(c, value) == Some(sign1) <==>
            var v := if value.Tag? && value.tag == 18 then value.inner else value;
            && v.Array? && |v.items| == 4
            && v.items[0] == Bytes(sign1.protectedBytes) && v.items[3] == Bytes(sign1.signature)
            && v.items[2] == (if sign1.payload.Some? then Bytes(sign1.payload.value) else Null)
            && ReadHeader(v.items[1]) == Some(sign1.unprotected)
            && if sign1.protectedBytes == Raw([]) then sign1.protectedHeader == Header(None, [])
               else
                 && DecodeWhole(c, sign1.protectedBytes).Some?
                 && ReadHeader(DecodeWhole(c, sign1.protectedBytes).value) == Some(sign1.protectedHeader)
  {
    hide ReadHeader;
  }

  /** The structure a signature is over (RFC 9052 section 4.4), with no external data. */
  function ToBeSigned(protectedBytes: ByteString, payload: ByteString): ByteString {
    Encoded(Array([Text("Signature1"), Bytes(protectedBytes), Bytes(Raw([])), Bytes(payload)]))
  }

  function ProtectedFor(key: PublicKey, extra: seq<(Value, Value)>): ByteString {
    Encoded(Map([(LABEL_ALG, AlgorithmId(AlgorithmOf(key)))] + extra))
  }

  /** Sign a payload and carry it. */
  function Sign(key: PublicKey, payload: ByteString, extra: seq<(Value, Value)>, unprotected: seq<(Value, Value)>)
    : Value
  {
    var p := ProtectedFor(key, extra);
    Array([Bytes(p), Map(unprotected), Bytes(payload), Bytes(Signature(key, ToBeSigned(p, payload), 0))])
  }

  /** Sign a payload the verifier reconstructs. */
  function SignDetached(key: PublicKey, payload: ByteString): Value {
    var p := ProtectedFor(key, []);
    Array([Bytes(p), Map([]), Null, Bytes(Signature(key, ToBeSigned(p, payload), 0))])
  }

  /** The algorithm is fixed by the key, not by the header. */
  predicate CheckAlgorithm(sign1: Sign1, jwk: Jws.Jwk) {
    var alg := Jws.AlgorithmForJwk(jwk);
    alg.Some? && sign1.protectedHeader.alg == Some(AlgorithmId(alg.value))
  }

  predicate Verify(c: Codec, sign1: Sign1, jwk: Jws.Jwk) {
    && CheckAlgorithm(sign1, jwk)
    && sign1.payload.Some?
    && VerifyWithJwk(c, jwk, ToBeSigned(sign1.protectedBytes, sign1.payload.value), sign1.signature)
  }

  predicate VerifyDetached(c: Codec, sign1: Sign1, payload: ByteString, jwk: Jws.Jwk) {
    && CheckAlgorithm(sign1, jwk)
    && sign1.payload.None?
    && VerifyWithJwk(c, jwk, ToBeSigned(sign1.protectedBytes, payload), sign1.signature)
  }

  /** The signature is by the key the JWK denotes, over the context text, the protected header as it was
      sent, no external data and the payload, and the header names the key's algorithm. */
  predicate SignedOver(c: Codec, sign1: Sign1, payload: ByteString, jwk: Jws.Jwk) {
    && sign1.signature.Signature? && KeyOf(c, jwk) == Some(sign1.signature.key)
    && sign1.signature.over
       == Encoded(Array([Text("Signature1"), Bytes(sign1.protectedBytes), Bytes(Raw([])), Bytes(payload)]))
    && sign1.protectedHeader.alg == Some(Integer(if sign1.signature.key.P256? then -7 else -8))
  }

  /** Verifying accepts exactly that: for the payload carried, or for the one offered when none is carried. */
  lemma VerifiesIff(c: Codec, sign1: Sign1, offered: ByteString, jwk: Jws.Jwk)
    ensures Verify(c, sign1, jwk) <==> sign1.payload.Some? && SignedOver(c, sign1, sign1.payload.value, jwk)
    ensures VerifyDetached(c, sign1, offered, jwk) <==> sign1.payload.None? && SignedOver(c, sign1, offered, jwk)
  {
    hide DecodeCoordinate;
  }

  lemma ProtectedReads(c: Codec, key: PublicKey)
    ensures ReadProtected(c, ProtectedFor(key, [])) == Some(Header(Some(AlgorithmId(AlgorithmOf(key))), []))
  {
    var entries := [(LABEL_ALG, AlgorithmId(AlgorithmOf(key)))];
    assert entries + [] == entries;
    assert Find(entries, LABEL_ALG) == Some(entries[0].1);
    assert entries[1..] == [];
    assert WithoutLabel(entries, LABEL_ALG) == [] + WithoutLabel([], LABEL_ALG);
  }

  /** A detached signature verifies for a JWK and payload iff the JWK denotes the signing key and
      the payload is the one that was signed. */
  lemma DetachedVerifiesIff(c: Codec, key: PublicKey, payload: ByteString, offered: ByteString, jwk: Jws.Jwk)
    ensures var sign1 := FromValue(c, SignDetached(key, payload));
            && sign1.Some?
            && (VerifyDetached(c, sign1.value, offered, jwk) <==> KeyOf(c, jwk) == Some(key) && offered == payload)
  {
  }

  lemma EmptyHeader()
    ensures ReadHeader(Map([])) == Some(Header(None, []))
  {
  }

  // ---- Certificate chains in headers ----------------------------------------------------

  function Certificates(chain: seq<ByteString>): seq<Value> {
    seq(|chain|, i requires 0 <= i < |chain| => Bytes(chain[i]))
  }

  /** A byte string for one certificate, an array otherwise (RFC 9360). */
  function X5chainValue(chain: seq<ByteString>): Value {
    if |chain| == 1 then Bytes(chain[0]) else Array(Certificates(chain))
  }

  function ReadCertificates(items: seq<Value>): (r: Option<seq<ByteString>>)
    ensures r.Some? <==> forall i :: 0 <= i < |items| ==> items[i].Bytes?
    ensures r.Some? ==> |r.value| == |items| && forall i :: 0 <= i < |items| ==> items[i] == Bytes(r.value[i])
  {
    if items == [] then Some([])
    else match (items[0], ReadCertificates(items[1..]))
      case (Bytes(b), Some(rest)) => Some([b] + rest)
      case _ => None
  }

  /** The chain in a header, leaf first; empty if there is none. */
  function X5chain(header: Header): Option<seq<ByteString>> {
    match Find(header.rest, LABEL_X5CHAIN)
    case None => Some([])
    case Some(Bytes(cert)) => Some([cert])
    case Some(Array(items)) => if items == [] then None else ReadCertificates(items)
    case _ => None
  }

  /** The chain a header has: none without the label, one certificate as bytes, or as many as an array that
      is not empty lists; anything else is no chain. */
  lemma X5chainIff(header: Header, chain: seq<ByteString>)
    ensures X5chain(header) == Some(chain) <==>
            match Find(header.rest, Integer(33))
            case None => chain == []
            case Some(Bytes(cert)) => chain == [cert]
            case Some(Array(items)) =>
              items != [] && |items| == |chain| && forall i :: 0 <= i < |items| ==> items[i] == Bytes(chain[i])
            case Some(_) => false
  {
    hide Find;
    match Find(header.rest, Integer(33))
    case Some(Array(items)) =>
      if ReadCertificates(items).Some? && |items| == |chain|
         && forall i :: 0 <= i < |items| ==> items[i] == Bytes(chain[i]) {
        assert ReadCertificates(items).value == chain;
      }
    case _ =>
  }

  /** The unprotected header of a signer that has a chain. */
  function ChainHeader(chain: seq<ByteString>): seq<(Value, Value)> {
    [(LABEL_X5CHAIN, X5chainValue(chain))]
  }

  lemma ChainHeaderReads(chain: seq<ByteString>)
    ensures ReadHeader(Map(ChainHeader(chain))) == Some(Header(None, ChainHeader(chain)))
  {
    hide X5chainValue;
    var entries := ChainHeader(chain);
    assert Find(entries, LABEL_ALG) == None;
    assert entries[1..] == [];
    assert WithoutLabel([], LABEL_ALG) == [];
    assert WithoutLabel(entries, LABEL_ALG) == [entries[0]] + [];
    assert [entries[0]] + [] == entries;
  }

  lemma CertificatesRead(chain: seq<ByteString>)
    ensures ReadCertificates(Certificates(chain)) == Some(chain)
    ensures Certificates(chain) == [] <==> chain == []
  {
    assert |Certificates(chain)| == |chain|;
    assert ReadCertificates(Certificates(chain)).value == chain;
  }

  /** A written chain reads back unless it is empty, which the reader refuses. */
  lemma X5chainRoundTrip(chain: seq<ByteString>)
    ensures X5chain(Header(None, ChainHeader(chain))) == if chain == [] then None else Some(chain)
  {
    hide Find, Certificates, ReadCertificates;
    FindAt(ChainHeader(chain), 0);
    CertificatesRead(chain);
    if |chain| == 1 {
      assert [chain[0]] == chain;
    }
  }

  function ReadBack(key: PublicKey, payload: ByteString, chain: seq<ByteString>): Sign1 {
    var p := ProtectedFor(key, []);
    Sign1(p, Header(Some(AlgorithmId(AlgorithmOf(key))), []), Header(None, ChainHeader(chain)),
          Some(payload), Signature(key, ToBeSigned(p, payload), 0))
  }

  /** Reading back a COSE_Sign1 that carries its payload and its signer's chain. */
  lemma SignedReads(c: Codec, key: PublicKey, payload: ByteString, chain: seq<ByteString>)
    ensures FromValue(c, Sign(key, payload, [], ChainHeader(chain))) == Some(ReadBack(key, payload, chain))
  {
    hide ReadProtected, ReadHeader, ChainHeader;
    ProtectedReads(c, key);
    ChainHeaderReads(chain);
  }
}
