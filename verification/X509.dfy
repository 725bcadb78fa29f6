/** Certificate chain validation (the walk behind `x5c` and `x5chain`). */
module X509 {
  import opened Wrappers
  import opened Jws

  datatype X509Error = InvalidPem | InvalidCertificate | KeyMismatch | Untrusted

  /** The parts of a certificate the walk looks at. Times are in the clock's unit. */
  datatype Certificate = Certificate(
    notBefore: int, notAfter: int, basicConstraintsCa: Option<bool>,
    issuerName: string, subjectName: string, ecdsaSha256: bool, p256Key: bool,
    publicKey: string, tbs: string, signature: string)

  /** DER parsing and P-256, as the functions the code calls. `D` is a DER document. */
  datatype CertLibrary<!D> = CertLibrary(
    parse: D -> Option<Certificate>,
    isPoint: string -> bool,
    isSignature: string -> bool,
    verifies: (string, string, string) -> bool,
    pointJwk: string -> Jwk)

  function ParseAll<D>(lib: CertLibrary<D>, chain: seq<D>): (r: Option<seq<Certificate>>)
    ensures r.Some? <==> forall i :: 0 <= i < |chain| ==> lib.parse(chain[i]).Some?
    ensures r.Some? ==> |r.value| == |chain| && forall i :: 0 <= i < |chain| ==> lib.parse(chain[i]) == Some(r.value[i])
  {
    if chain == [] then Some([])
    else match (lib.parse(chain[0]), ParseAll(lib, chain[1..]))
      case (Some(cert), Some(rest)) => Some([cert] + rest)
      case _ => None
  }

  predicate ValidAt(cert: Certificate, at: int) {
    cert.notBefore <= at <= cert.notAfter
  }

  predicate IsCa(cert: Certificate) {
    cert.basicConstraintsCa == Some(true)
  }

  function VerifyIssuedBy<D>(lib: CertLibrary<D>, cert: Certificate, issuer: Certificate): Result<(), X509Error> {
    if cert.issuerName != issuer.subjectName then Err(Untrusted)
    else if !cert.ecdsaSha256 then Err(Untrusted)
    else if !issuer.p256Key then Err(Untrusted)
    else if !lib.isPoint(issuer.publicKey) then Err(InvalidCertificate)
    else if !lib.isSignature(cert.signature) then Err(Untrusted)
    else if !lib.verifies(issuer.publicKey, cert.tbs, cert.signature) then Err(Untrusted)
    else Ok(())
  }

  /** The loop over the chain, from certificate `i` up. */
  function CheckFrom<D>(lib: CertLibrary<D>, certs: seq<Certificate>, at: int, i: nat): Result<(), X509Error>
    requires i <= |certs|
    decreases |certs| - i
  {
    if i == |certs| then Ok(())
    else if !ValidAt(certs[i], at) then Err(Untrusted)
    else if i + 1 < |certs| then
      if !IsCa(certs[i + 1]) then Err(Untrusted)
      else
        var _ :- VerifyIssuedBy(lib, certs[i], certs[i + 1]);
        CheckFrom(lib, certs, at, i + 1)
    else CheckFrom(lib, certs, at, i + 1)
  }

  predicate AnchorIssued<D(==)>(lib: CertLibrary<D>, anchor: D, topDer: D, top: Certificate, at: int) {
    || anchor == topDer
    || match lib.parse(anchor)
       case Some(cert) => ValidAt(cert, at) && VerifyIssuedBy(lib, top, cert).Ok?
       case None => false
  }

  predicate Anchored<D(==)>(lib: CertLibrary<D>, anchors: seq<D>, topDer: D, top: Certificate, at: int) {
    exists i :: 0 <= i < |anchors| && AnchorIssued(lib, anchors[i], topDer, top, at)
  }

  /** Validate a chain, leaf first, against the trust anchors; the leaf's key when it holds. */
  function ValidateChain<D(==)>(lib: CertLibrary<D>, chain: seq<D>, anchors: seq<D>, at: int): Result<Jwk, X509Error> {
    match ParseAll(lib, chain)
    case None => Err(InvalidCertificate)
    case Some(certs) =>
      if certs == [] then Err(Untrusted)
      else
        var _ :- CheckFrom(lib, certs, at, 0);
        if !Anchored(lib, anchors, chain[|chain| - 1], certs[|certs| - 1], at) then Err(Untrusted)
        else if !lib.isPoint(certs[0].publicKey) then Err(InvalidCertificate)
        else Ok(lib.pointJwk(certs[0].publicKey))
  }

  // ---- When a chain is accepted -------------------------------------------------------

  /** The issuer's P-256 key signed the certificate, and the names link them. */
  ghost predicate Signed<D>(lib: CertLibrary<D>, cert: Certificate, issuer: Certificate) {
    && cert.issuerName == issuer.subjectName && cert.ecdsaSha256
    && issuer.p256Key && lib.isPoint(issuer.publicKey)
    && lib.isSignature(cert.signature) && lib.verifies(issuer.publicKey, cert.tbs, cert.signature)
  }

  /** Certificate `j` was signed by the next one, which is a CA. */
  ghost predicate Link<D>(lib: CertLibrary<D>, certs: seq<Certificate>, j: nat)
    requires j + 1 < |certs|
  {
    certs[j + 1].basicConstraintsCa == Some(true) && Signed(lib, certs[j], certs[j + 1])
  }

  /** Every certificate is in its window and linked to the next. */
  ghost predicate Linked<D>(lib: CertLibrary<D>, certs: seq<Certificate>, at: int, i: nat) {
    && (forall j :: i <= j < |certs| ==> certs[j].notBefore <= at <= certs[j].notAfter)
    && (forall j :: i <= j < |certs| - 1 ==> Link(lib, certs, j))
  }

  /** The anchor is the top of the chain, or signed the top and is in its own window. */
  ghost predicate Stands<D>(lib: CertLibrary<D>, anchor: D, topDer: D, top: Certificate, at: int) {
    || anchor == topDer
    || (lib.parse(anchor).Some?
        && var cert := lib.parse(anchor).value;
        cert.notBefore <= at <= cert.notAfter && Signed(lib, top, cert))
  }

  ghost predicate SomeStands<D>(lib: CertLibrary<D>, anchors: seq<D>, topDer: D, top: Certificate, at: int) {
    exists i :: 0 <= i < |anchors| && Stands(lib, anchors[i], topDer, top, at)
  }

  lemma IssuedIsSigned<D>(lib: CertLibrary<D>, cert: Certificate, issuer: Certificate)
    ensures VerifyIssuedBy(lib, cert, issuer).Ok? <==> Signed(lib, cert, issuer)
  {
  }

  lemma {:induction false} CheckIsLinked<D>(lib: CertLibrary<D>, certs: seq<Certificate>, at: int, i: nat)
    requires i <= |certs|
    ensures CheckFrom(lib, certs, at, i).Ok? <==> Linked(lib, certs, at, i)
    decreases |certs| - i
  {
    hide VerifyIssuedBy, Signed;
    if i < |certs| {
      CheckIsLinked(lib, certs, at, i + 1);
      if i + 1 < |certs| {
        IssuedIsSigned(lib, certs[i], certs[i + 1]);
      }
      assert Linked(lib, certs, at, i) <==>
             ValidAt(certs[i], at) && (i + 1 < |certs| ==> Link(lib, certs, i)) && Linked(lib, certs, at, i + 1);
    }
  }

  lemma AnchoredIsStanding<D>(lib: CertLibrary<D>, anchors: seq<D>, topDer: D, top: Certificate, at: int)
    ensures Anchored(lib, anchors, topDer, top, at) <==> SomeStands(lib, anchors, topDer, top, at)
  {
    hide VerifyIssuedBy, Signed;
    forall i | 0 <= i < |anchors|
      ensures AnchorIssued(lib, anchors[i], topDer, top, at) <==> Stands(lib, anchors[i], topDer, top, at)
    {
      if lib.parse(anchors[i]).Some? {
        IssuedIsSigned(lib, top, lib.parse(anchors[i]).value);
      }
    }
  }

  /** A chain is accepted iff it parses, is not empty, every certificate is in its window and signed by the
      next, which is a CA with a P-256 key, an anchor is the top or signed it and is in its own window,
      and the leaf key is a P-256 point; the key it gives is the leaf's. */
  lemma AcceptedIff<D>(lib: CertLibrary<D>, chain: seq<D>, anchors: seq<D>, at: int)
    ensures ValidateChain(lib, chain, anchors, at).Ok? <==>
            && chain != [] && ParseAll(lib, chain).Some?
            && var certs := ParseAll(lib, chain).value;
            && Linked(lib, certs, at, 0)
            && SomeStands(lib, anchors, chain[|chain| - 1], certs[|certs| - 1], at)
            && lib.isPoint(certs[0].publicKey)
    ensures ValidateChain(lib, chain, anchors, at).Ok? ==>
            && chain != [] && lib.parse(chain[0]).Some?
            && ValidateChain(lib, chain, anchors, at) == Ok(lib.pointJwk(lib.parse(chain[0]).value.publicKey))
  {
    hide CheckFrom, Linked, Anchored, SomeStands;
    if ParseAll(lib, chain).Some? && chain != [] {
      var certs := ParseAll(lib, chain).value;
      CheckIsLinked(lib, certs, at, 0);
      AnchoredIsStanding(lib, anchors, chain[|chain| - 1], certs[|certs| - 1], at);
    }
  }

  lemma {:induction false} CheckKinds<D>(lib: CertLibrary<D>, certs: seq<Certificate>, at: int, i: nat)
    requires i <= |certs| && CheckFrom(lib, certs, at, i).Err?
    ensures CheckFrom(lib, certs, at, i).error in {InvalidCertificate, Untrusted}
    decreases |certs| - i
  {
    if i < |certs| && CheckFrom(lib, certs, at, i + 1).Err? {
      CheckKinds(lib, certs, at, i + 1);
    }
  }

  /** A chain is refused for a part that cannot be read or for want of trust. */
  lemma RefusalKinds<D>(lib: CertLibrary<D>, chain: seq<D>, anchors: seq<D>, at: int)
    requires ValidateChain(lib, chain, anchors, at).Err?
    ensures ValidateChain(lib, chain, anchors, at).error in {InvalidCertificate, Untrusted}
    ensures ParseAll(lib, chain).None? ==> ValidateChain(lib, chain, anchors, at).error == InvalidCertificate
  {
    hide CheckFrom, Anchored;
    if ParseAll(lib, chain).Some? && CheckFrom(lib, ParseAll(lib, chain).value, at, 0).Err? {
      CheckKinds(lib, ParseAll(lib, chain).value, at, 0);
    }
  }

  /** The accepted key is the leaf's and does not depend on when the chain is checked. */
  lemma SameKeyAnyTime<D>(lib: CertLibrary<D>, chain: seq<D>, anchors: seq<D>, s: int, t: int)
    requires ValidateChain(lib, chain, anchors, s).Ok? && ValidateChain(lib, chain, anchors, t).Ok?
    ensures ValidateChain(lib, chain, anchors, s) == ValidateChain(lib, chain, anchors, t)
  {
    hide CheckFrom, Anchored;
  }

  /** Between two instants at which a chain is accepted, it is accepted iff some anchor is the top, or
      signed the top and is in its own window then. */
  lemma AcceptedBetweenIff<D>(lib: CertLibrary<D>, chain: seq<D>, anchors: seq<D>, s: int, t: int, at: int)
    requires ValidateChain(lib, chain, anchors, s).Ok? && ValidateChain(lib, chain, anchors, t).Ok?
    requires s <= at <= t
    ensures var certs := ParseAll(lib, chain).value;
            chain != [] && ParseAll(lib, chain).Some? &&
            (ValidateChain(lib, chain, anchors, at).Ok? <==>
             SomeStands(lib, anchors, chain[|chain| - 1], certs[|certs| - 1], at))
  {
    hide ValidateChain, SomeStands, Link;
    AcceptedIff(lib, chain, anchors, s);
    AcceptedIff(lib, chain, anchors, t);
    AcceptedIff(lib, chain, anchors, at);
  }

  lemma OneStandsBetween<D>(lib: CertLibrary<D>, anchor: D, topDer: D, top: Certificate, s: int, t: int, at: int)
    requires SomeStands(lib, [anchor], topDer, top, s) && SomeStands(lib, [anchor], topDer, top, t) && s <= at <= t
    ensures SomeStands(lib, [anchor], topDer, top, at)
  {
    hide Signed;
    assert Stands(lib, [anchor][0], topDer, top, s) && Stands(lib, [anchor][0], topDer, top, t);
    assert Stands(lib, [anchor][0], topDer, top, at);
  }

  /** With one trust anchor the accepting times form an interval. */
  lemma AcceptedBetween<D>(lib: CertLibrary<D>, chain: seq<D>, anchor: D, s: int, t: int, at: int)
    requires ValidateChain(lib, chain, [anchor], s).Ok? && ValidateChain(lib, chain, [anchor], t).Ok?
    requires s <= at <= t || t <= at <= s
    ensures ValidateChain(lib, chain, [anchor], at) == ValidateChain(lib, chain, [anchor], s)
  {
    hide ValidateChain, SomeStands, Linked;
    var first, last := if s <= t then s else t, if s <= t then t else s;
    AcceptedIff(lib, chain, [anchor], s);
    AcceptedIff(lib, chain, [anchor], t);
    var certs := ParseAll(lib, chain).value;
    OneStandsBetween(lib, anchor, chain[|chain| - 1], certs[|certs| - 1], first, last, at);
    AcceptedBetweenIff(lib, chain, [anchor], first, last, at);
    SameKeyAnyTime(lib, chain, [anchor], s, at);
  }

  /** With two anchors it need not be one: the first can lapse before the second begins. */
  lemma TwoAnchorsLeaveAGap(lib: CertLibrary<nat>)
    requires lib.isPoint("p") && lib.isSignature("s") && lib.verifies("p", "t", "s")
    requires lib.parse(0) == Some(Certificate(0, 100, None, "ca", "leaf", true, true, "p", "t", "s"))
    requires lib.parse(1) == Some(Certificate(0, 10, Some(true), "ca", "ca", true, true, "p", "t", "s"))
    requires lib.parse(2) == Some(Certificate(20, 100, Some(true), "ca", "ca", true, true, "p", "t", "s"))
    ensures ValidateChain(lib, [0], [1, 2], 5).Ok? && ValidateChain(lib, [0], [1, 2], 25).Ok?
    ensures ValidateChain(lib, [0], [1, 2], 15).Err?
  {
    hide ValidateChain;
    AcceptedIff(lib, [0], [1, 2], 5);
    AcceptedIff(lib, [0], [1, 2], 15);
    AcceptedIff(lib, [0], [1, 2], 25);
    var anchors := [1, 2];
    var leaf := lib.parse(0).value;
    assert Stands(lib, anchors[0], 0, leaf, 5);
    assert Stands(lib, anchors[1], 0, leaf, 25);
    assert !Stands(lib, anchors[0], 0, leaf, 15) && !Stands(lib, anchors[1], 0, leaf, 15);
  }
}
