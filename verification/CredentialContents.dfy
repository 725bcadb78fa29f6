/** What an issued credential says when it is verified: whose it is, and where its status is. */
module CredentialContents {
  import opened Wrappers
  import opened Jws
  import opened Authorization
  import opened StatusManagers
  import opened Cose
  import opened CredentialIssuance
  import Credentials
  import Mdoc
  import MdocIssuance
  import MdocPresentation
  import MdocTheorems
  import SdJwt
  import SdJwtTheorems

  /** A credential made as the endpoint makes them, for this configuration. */
  ghost predicate Genuine(issuer: Issuer, config: Configuration, m: Made) {
    && Refusal(issuer, config).None? && m.index < LIST_CAPACITY
    && LotFits(issuer, config, m.holder, m.index, m.lot, m.at)
    && Signed(issuer, config, m.holder, m.index, m.lot, m.at) == Ok(m.credential)
  }

  /** A try that succeeds makes a genuine credential. */
  lemma GenuineMade(issuer: Issuer, config: Configuration, key: Jwk, m: ManagerModel, attempt: Attempt,
                    now: int)
    requires Possible(issuer, config, key, m, attempt, now) && Outcome(issuer, config, key, attempt, now).Ok?
    ensures var made := MadeBy(issuer, config, key, attempt, now, Outcome(issuer, config, key, attempt, now).value);
            made.holder == key && made.at == now && Genuine(issuer, config, made)
  {
    hide LotFits, Signed, Refusal, ListOf;
  }

  /** The tries that succeed make a genuine credential for each key in turn. */
  lemma {:induction false} SeriesMakes(issuer: Issuer, config: Configuration, keys: seq<Jwk>, m: ManagerModel,
                                       attempts: seq<Attempt>, now: int)
    requires Tried(issuer, config, keys, m, attempts, now) && Series(issuer, config, keys, m, attempts, now).0.Ok?
    ensures var made := Series(issuer, config, keys, m, attempts, now).0.value;
            && |made| == |attempts| <= |keys|
            && forall i :: 0 <= i < |made| ==>
                 made[i].holder == keys[i] && made[i].at == now && Genuine(issuer, config, made[i])
    decreases |attempts|
  {
    hide Possible, Outcome, AfterAttempt, Genuine, MadeBy;
    if attempts != [] {
      var n := |attempts| - 1;
      SeriesMakes(issuer, config, keys, m, attempts[..n], now);
      GenuineMade(issuer, config, keys[n], Series(issuer, config, keys, m, attempts[..n], now).1, attempts[n], now);
    }
  }

  /** For a configuration no credential can be issued for, the one try there is fails and draws nothing. */
  lemma {:induction false} SeriesRefused(issuer: Issuer, config: Configuration, keys: seq<Jwk>, m: ManagerModel,
                                         attempts: seq<Attempt>, now: int)
    requires Tried(issuer, config, keys, m, attempts, now) && Refusal(issuer, config).Some?
    ensures |attempts| <= 1 && Series(issuer, config, keys, m, attempts, now).1 == m
    ensures attempts != [] ==>
              Series(issuer, config, keys, m, attempts, now).0 == Err(Refusal(issuer, config).value)
    decreases |attempts|
  {
    hide Refusal, LotOk;
    if attempts != [] {
      SeriesRefused(issuer, config, keys, m, attempts[..|attempts| - 1], now);
    }
  }

  // ---- SD-JWT VC ---------------------------------------------------------------------------------

  lemma OrdinaryIssuance(issuer: Issuer, config: Configuration, m: Made)
    requires Genuine(issuer, config, m) && config.format == SD_JWT_FORMAT
    requires Ideal(issuer.lib) && AlgorithmForJwk(issuer.key).Some? && 0 <= Seconds(m.at) <= SdJwtTheorems.MAX_TIME
    ensures var i := IssuanceOf(issuer, config.vct.value, m.holder, m.index, m.lot, m.at);
            SdJwtTheorems.Sound(issuer.lib, i) && m.credential == SdJwtVcCredential(VcText(issuer.lib, i))
  {
    hide Ideal, StatusClaim, Cnf, VcText, SdJwtTheorems.OWN;
  }

  /** All the disclosures of an issuance are issued, and no two are the same. */
  lemma AllDisclosures(lib: Jws.Library, i: SdJwtTheorems.Issuance)
    requires SdJwtTheorems.Sound(lib, i)
    ensures var ds := SdJwtTheorems.DisclosuresOf(lib, i);
            SdJwtTheorems.NoRepeats(SdJwt.EncodedForms(ds)) && SdJwtTheorems.AllIssued(ds, SdJwt.EncodedForms(ds))
  {
    hide Ideal, SdJwt.DistinctNames, SdJwtTheorems.OWN, SdJwt.NewDisclosure;
    var texts := SdJwt.EncodedForms(SdJwtTheorems.DisclosuresOf(lib, i));
    forall j, k | 0 <= j < k < |texts| ensures texts[j] != texts[k] {
      SdJwtTheorems.DistinctDigests(lib, i, j, k);
    }
  }

  lemma WholeWellFormed(lib: Jws.Library, i: SdJwtTheorems.Issuance)
    requires SdJwtTheorems.Sound(lib, i)
    ensures Credentials.WellFormed(SdJwtTheorems.Presentation(lib, i,
        SdJwt.EncodedForms(SdJwtTheorems.DisclosuresOf(lib, i)), None))
  {
    hide Ideal, SdJwt.DistinctNames, SdJwtTheorems.OWN, SdJwt.NewDisclosures, SdJwtTheorems.JwtOf, Credentials.Carried;
    var texts := SdJwt.EncodedForms(SdJwtTheorems.DisclosuresOf(lib, i));
    SdJwtTheorems.JwtReads(lib, i);
    forall k | 0 <= k < |texts| ensures Credentials.Carried(texts[k]) {
      SdJwtTheorems.IssuedCarried(lib, i, texts[k]);
    }
  }

  /** The status list entry a payload refers to: index and list URI. */
  function StatusEntryOf(payload: Json): Option<(int, string)> {
    match payload.Get("status")
    case None => None
    case Some(status) =>
      match status.Get("status_list")
      case None => None
      case Some(list) =>
        match (list.GetInt("idx"), list.GetStr("uri"))
        case (Some(index), Some(uri)) => Some((index, uri))
        case _ => None
  }

  /** What verifying this text as a whole SD-JWT VC of the issuer says at `now`: it is accepted within a
      year of the day it was made; then it is the holder's, of this issuer and of the configuration's
      type, its status is the entry drawn for it in the issuer's list, its header names the issuer's key
      and chain, and it shows every claim of the subject. */
  ghost predicate VcSays(issuer: Issuer, config: Configuration, m: Made, text: string, now: int) {
    var r := SdJwt.Verified(issuer.lib, text, issuer.key, now);
    var at := m.at / 1000;
    var day := at - at % 86_400;
    && (r.Ok? <==> day <= now < day + 86_400 * 365)
    && (r.Ok? ==> && r.value.HolderJwk() == Some(m.holder)
                  && StatusEntryOf(r.value.payload) == Some((m.index, issuer.statusUri))
                  && r.value.payload.GetStr("iss") == Some(issuer.issuerUrl)
                  && r.value.payload.GetStr("vct") == config.vct
                  && r.value.claims == SUBJECT)
    && SignedBy(issuer, text)
  }

  /** The text starts with a JWT whose header names the issuer's key and chain. */
  ghost predicate SignedBy(issuer: Issuer, text: string) {
    && Credentials.Parsed(text).Ok?
    && var decoded := DecodeCompact(issuer.lib, Credentials.Parsed(text).value.issuerJwt);
    && decoded.Ok? && decoded.value.header.typ == Some("dc+sd-jwt")
    && decoded.value.header.kid == Some(issuer.kid) && decoded.value.header.x5c == issuer.x5c
  }

  /** A whole SD-JWT VC, as the endpoint returns it, verifies exactly within its window, as the
      holder's, with the status index drawn for it and every claim of the subject. */
  lemma VcVerifies(issuer: Issuer, config: Configuration, m: Made, now: int)
    requires Genuine(issuer, config, m) && config.format == SD_JWT_FORMAT
    requires Ideal(issuer.lib) && AlgorithmForJwk(issuer.key).Some? && 0 <= Seconds(m.at) <= SdJwtTheorems.MAX_TIME
    ensures m.credential.SdJwtVcCredential? && VcSays(issuer, config, m, m.credential.text, now)
  {
    hide SdJwtTheorems.Sound, SdJwt.Verified, SdJwtTheorems.PayloadOf, SdJwtTheorems.Presentation,
         StatusClaim, JwkJson, JwkFromJson, StatusEntryOf, Json.Get, SignedBy,
         SdJwt.NewDisclosures, SdJwt.EncodedForms, Ideal, Visits, Signed, SdJwtTheorems.Chosen,
         SdJwt.VisibleClaims, Credentials.Compact;
    OrdinaryIssuance(issuer, config, m);
    var i := IssuanceOf(issuer, config.vct.value, m.holder, m.index, m.lot, m.at);
    var ds := SdJwtTheorems.DisclosuresOf(issuer.lib, i);
    AllDisclosures(issuer.lib, i);
    WholeWellFormed(issuer.lib, i);
    SdJwtTheorems.SelectiveDisclosure(issuer.lib, i, SdJwt.EncodedForms(ds), None, now);
    SdJwtTheorems.HolderReads(issuer.lib, i, m.holder);
    SdJwtTheorems.IssuedPayload(issuer.lib, i);
    StatusReads(SdJwtTheorems.PayloadOf(issuer.lib, i), m.index, issuer.statusUri);
    SignedByIssuer(issuer, i);
    SubjectShown(m.lot.visit, ds);
  }

  lemma StatusReads(payload: Json, index: nat, uri: string)
    requires payload.Get("status") == Some(StatusClaim(index, uri)) && index < LIST_CAPACITY
    ensures StatusEntryOf(payload) == Some((index, uri))
  {
    assert "idx"[0] != "uri"[0];
  }

  lemma SignedByIssuer(issuer: Issuer, i: SdJwtTheorems.Issuance)
    requires SdJwtTheorems.Sound(issuer.lib, i) && i.kid == issuer.kid && i.req.x5c == issuer.x5c
    ensures SignedBy(issuer, VcText(issuer.lib, i))
  {
    hide Ideal, SdJwt.DistinctNames, SdJwtTheorems.OWN, SdJwt.NewDisclosures, SdJwtTheorems.JwtOf, DecodeCompact,
         Credentials.WellFormed, Credentials.Parsed, Credentials.Compact;
    WholeWellFormed(issuer.lib, i);
    var all := SdJwt.EncodedForms(SdJwtTheorems.DisclosuresOf(issuer.lib, i));
    Credentials.ParseCompact(SdJwtTheorems.Presentation(issuer.lib, i, all, None));
    SdJwtTheorems.IssuedHeader(issuer.lib, i);
  }

  lemma SubjectShown(visit: seq<(string, Json)>, ds: seq<SdJwt.Disclosure>)
    requires Visits(visit) && |ds| == |visit|
    ensures SdJwtTheorems.Chosen(visit, ds, SdJwt.EncodedForms(ds)) + SdJwt.VisibleClaims(Obj(map[])) == SUBJECT
  {
    hide SUBJECT, SdJwtTheorems.Chosen, Visits;
    forall k | 0 <= k < |ds| ensures ds[k].encoded in SdJwt.EncodedForms(ds) {
      assert SdJwt.EncodedForms(ds)[k] == ds[k].encoded;
    }
    AllChosen(visit, ds, SdJwt.EncodedForms(ds));
    assert SdJwt.VisibleClaims(Obj(map[])) == map[];
    assert SUBJECT + map[] == SUBJECT;
  }

  lemma AllChosen(visit: seq<(string, Json)>, ds: seq<SdJwt.Disclosure>, texts: seq<string>)
    requires Visits(visit) && |ds| == |visit| && forall k :: 0 <= k < |ds| ==> ds[k].encoded in texts
    ensures SdJwtTheorems.Chosen(visit, ds, texts) == SUBJECT
  {
    hide SUBJECT;
    var chosen := SdJwtTheorems.Chosen(visit, ds, texts);
    forall name | name in SUBJECT ensures name in chosen && chosen[name] == SUBJECT[name] {
      var k :| 0 <= k < |visit| && visit[k].0 == name;
    }
  }

  // ---- mdoc ----------------------------------------------------------------------------------------

  /** A year before the year 10000, in milliseconds: from earlier instants a year on can still be written. */
  const LAST_ISSUANCE: int := 253_370_764_800_000

  lemma LicencePrintable(issuer: Issuer, m: Made)
    requires issuer.mdocSigner.Some? && issuer.mdocSigner.value.country.Some? && m.index < LIST_CAPACITY
    requires 0 <= m.at < LAST_ISSUANCE && Mdoc.Issuable(LicenceRequest(issuer, m.holder, m.index, m.at))
    ensures MdocTheorems.Printable(LicenceRequest(issuer, m.holder, m.index, m.at))
  {
    hide Elements, CoseKey, MdocIssuance.StartOfDay, MdocIssuance.Until, Mdoc.Period;
    var end := issuer.mdocSigner.value.notAfter;
    var req := LicenceRequest(issuer, m.holder, m.index, m.at);
    MdocIssuance.IssuableIff(MDL_DOCTYPE, req.namespaces, m.holder, Nanos(m.at), end, req.status,
                             issuer.mdocSigner.value.certificate);
    MdocIssuance.Window(Nanos(m.at), end);
    DayBefore(Nanos(m.at));
    DayInSeconds(Nanos(m.at));
    UntilInSeconds(Nanos(m.at), end);
  }

  lemma DayBefore(at: int)
    ensures MdocIssuance.StartOfDay(at) <= at < MdocIssuance.StartOfDay(at) + MdocIssuance.DAY
    ensures at >= 0 ==> MdocIssuance.StartOfDay(at) >= 0
  {
  }

  /** Whole days are whole seconds. */
  lemma DayInSeconds(at: int)
    ensures MdocIssuance.StartOfDay(at) % Mdoc.NANOS == 0
  {
    var days := at / MdocIssuance.DAY;
    assert MdocIssuance.StartOfDay(at) == Mdoc.NANOS * (86_400 * days);
  }

  lemma UntilInSeconds(now: int, end: int)
    ensures MdocIssuance.Until(now, end) % Mdoc.NANOS == 0
  {
    hide MdocIssuance.StartOfDay;
    var yearOn := MdocIssuance.StartOfDay(now) + MdocIssuance.MSO_VALIDITY_DAYS * MdocIssuance.DAY;
    DayInSeconds(if yearOn < end then yearOn else end);
  }

  /** An mdoc the endpoint returns was issuable, from a request for this holder and status index. */
  lemma OrdinaryMdoc(issuer: Issuer, config: Configuration, m: Made)
    requires Genuine(issuer, config, m) && config.format != SD_JWT_FORMAT && 0 <= m.at < LAST_ISSUANCE
    ensures var req := LicenceRequest(issuer, m.holder, m.index, m.at);
            && Mdoc.Issuable(req) && MdocTheorems.Printable(req) && m.lot.MdocLot?
            && MdocPresentation.WellIssued(req, m.lot.draws)
            && m.credential == MdocCredential(Mdoc.Issued(issuer.mdocLib, req, issuer.coseKey, m.lot.draws))
            && req.deviceKey == m.holder && req.status == Some(Mdoc.StatusRef(m.index, issuer.mdocStatusUri))
            && req.docType == MDL_DOCTYPE
  {
    hide Mdoc.Issuable, MdocTheorems.Printable, MdocPresentation.WellIssued, Mdoc.Issued, Elements,
         MdocIssuance.StartOfDay, MdocIssuance.Until;
    LicencePrintable(issuer, m);
  }

  lemma TwoNames(i: nat)
    requires i < |MDL_ELEMENTS|
    ensures MDL_ELEMENTS[i] == "issuing_country" <==> i == 5
    ensures MDL_ELEMENTS[i] == "un_distinguishing_sign" <==> i == 10
  {
    if i < 5 { NamesDiffer(i, 5); }
    if i > 5 { NamesDiffer(5, i); }
    if i < 10 { NamesDiffer(i, 10); }
    if i > 10 { NamesDiffer(10, i); }
  }

  /** A data element of the licence: the country of the certificate, or the licence's own data. */
  function LicenceValue(issuer: Issuer, country: string, today: int, name: string): Value {
    if name == "issuing_country" || name == "un_distinguishing_sign" then Value.Text(country)
    else issuer.licence(name, today)
  }

  lemma ElementValues(issuer: Issuer, country: string, today: int)
    ensures var es := Elements(issuer, country, today);
            forall i :: 0 <= i < |es| ==> es[i].value == LicenceValue(issuer, country, today, es[i].identifier)
  {
    forall i | 0 <= i < |MDL_ELEMENTS|
      ensures MDL_ELEMENTS[i] == "issuing_country" <==> i == 5
      ensures MDL_ELEMENTS[i] == "un_distinguishing_sign" <==> i == 10
    {
      TwoNames(i);
    }
  }

  /** The claims are the licence's: in its one namespace, exactly the disclosed elements with their values. */
  ghost predicate ShowsLicence(issuer: Issuer, country: string, today: int, disclose: MdocPresentation.Disclosed,
                               claims: Mdoc.Claims) {
    && claims.Keys <= {"org.iso.18013.5.1"}
    && var shown := Mdoc.ElementsOf(claims, "org.iso.18013.5.1");
    && (forall name :: name in shown <==> name in MDL_ELEMENTS && ("org.iso.18013.5.1", name) in disclose)
    && (forall name :: name in shown ==>
          shown[name] == issuer.mdocLib.toJson(LicenceValue(issuer, country, today, name)))
  }

  lemma RestrictShows(issuer: Issuer, country: string, today: int, disclose: MdocPresentation.Disclosed)
    ensures ShowsLicence(issuer, country, today, disclose, MdocPresentation.Restrict(issuer.mdocLib,
              [Mdoc.Namespace(MDL_NAMESPACE, Elements(issuer, country, today))], disclose))
  {
    hide Elements, LicenceValue, MdocPresentation.Shown, MdocPresentation.Restrict;
    var es := Elements(issuer, country, today);
    var namespaces := [Mdoc.Namespace(MDL_NAMESPACE, es)];
    var claims := MdocPresentation.Restrict(issuer.mdocLib, namespaces, disclose);
    var shown := MdocPresentation.Shown(issuer.mdocLib, MDL_NAMESPACE, es, disclose);
    ElementsDistinct(issuer, country, today);
    ElementValues(issuer, country, today);
    MdocPresentation.ShownMeans(issuer.mdocLib, MDL_NAMESPACE, es, disclose);
    MdocPresentation.RestrictMeans(issuer.mdocLib, namespaces, disclose, 0);
    assert Mdoc.ElementsOf(claims, MDL_NAMESPACE) == shown;
    forall name | name in claims ensures name == MDL_NAMESPACE {
      MdocPresentation.RestrictNames(issuer.mdocLib, namespaces, disclose, name);
    }
    forall name | name in MDL_ELEMENTS && (MDL_NAMESPACE, name) in disclose ensures name in shown {
      var i :| 0 <= i < |MDL_ELEMENTS| && MDL_ELEMENTS[i] == name;
      assert es[i].identifier == name;
    }
    forall name | name in shown
      ensures name in MDL_ELEMENTS && (MDL_NAMESPACE, name) in disclose
      ensures shown[name] == issuer.mdocLib.toJson(LicenceValue(issuer, country, today, name))
    {
      var j :| 0 <= j < |es| && es[j].identifier == name;
    }
  }

  /** The period of a licence: from the midnight before it was made to the last midnight that is neither
      after the certificate's end nor more than a year on. */
  ghost predicate LicencePeriod(v: Mdoc.ValidityInfo, at: int, certificateEnd: int) {
    && v.signed == v.validFrom && v.validFrom % MdocIssuance.DAY == 0
    && v.validFrom <= at < v.validFrom + MdocIssuance.DAY
    && v.validUntil % MdocIssuance.DAY == 0 && v.validUntil <= certificateEnd
    && v.validUntil <= v.validFrom + 365 * MdocIssuance.DAY
    && (v.validUntil + MdocIssuance.DAY > certificateEnd || v.validUntil == v.validFrom + 365 * MdocIssuance.DAY)
  }

  lemma PeriodOfLicence(issuer: Issuer, holder: Jwk, index: nat, now: int)
    requires issuer.mdocSigner.Some? && issuer.mdocSigner.value.country.Some?
    ensures LicencePeriod(Mdoc.Period(LicenceRequest(issuer, holder, index, now)), Nanos(now),
                          issuer.mdocSigner.value.notAfter)
  {
    hide Elements, CoseKey, MdocIssuance.StartOfDay, MdocIssuance.Until, Mdoc.Period, Mdoc.Issuable;
    var req := LicenceRequest(issuer, holder, index, now);
    MdocIssuance.IssuableIff(MDL_DOCTYPE, req.namespaces, holder, Nanos(now), issuer.mdocSigner.value.notAfter,
                             req.status, issuer.mdocSigner.value.certificate);
    MdocIssuance.Window(Nanos(now), issuer.mdocSigner.value.notAfter);
  }

  /** Each of the thirteen data elements carries 32 random bytes, as a reader of the mdoc finds them. */
  ghost predicate SaltedElements(issuer: Issuer, issuerSigned: ByteString) {
    forall j :: 0 <= j < 13 ==>
      var random := Mdoc.RandomOf(issuer.mdocLib, issuerSigned, 0, j);
      random.Some? && |random.value| == 32
  }

  lemma LicenceSalted(issuer: Issuer, config: Configuration, m: Made)
    requires Genuine(issuer, config, m) && config.format != SD_JWT_FORMAT && 0 <= m.at < LAST_ISSUANCE
    ensures m.credential.MdocCredential? && SaltedElements(issuer, m.credential.issuerSigned)
  {
    hide Mdoc.Issuable, MdocTheorems.Printable, Mdoc.Issued, Elements, MdocIssuance.StartOfDay, MdocIssuance.Until,
         Signed, Mdoc.RandomOf, Mdoc.DistinctIds, MdocPresentation.DistinctIdentifiers;
    OrdinaryMdoc(issuer, config, m);
    var req := LicenceRequest(issuer, m.holder, m.index, m.at);
    ShortNamespace(issuer, m.holder, m.index, m.at);
    forall j | 0 <= j < 13
      ensures Mdoc.RandomOf(issuer.mdocLib, m.credential.issuerSigned, 0, j) == Some(m.lot.draws[0][j].salt)
      ensures |m.lot.draws[0][j].salt| == 32
    {
      MdocTheorems.SaltReadsBack(issuer.mdocLib, req, issuer.coseKey, m.lot.draws, 0, j);
    }
  }

  /** What verifying a presentation of this mdoc says: it is accepted iff the document signer is trusted,
      the period holds, the holder's key signed and the transcripts agree; then the one document shown
      has the holder's key as device key, the status index, the period of a licence made then and exactly
      the disclosed elements. */
  ghost predicate MdocSays(issuer: Issuer, m: Made, issuerSigned: ByteString, disclose: MdocPresentation.Disclosed,
                           presented: Value, expected: Value,
                           device: PublicKey, anchors: seq<ByteString>, now: int) {
    && issuer.mdocSigner.Some? && issuer.mdocSigner.value.country.Some?
    && SaltedElements(issuer, issuerSigned)
    && var response := Mdoc.Present(issuer.mdocLib, issuerSigned, disclose, presented, device);
       var req := LicenceRequest(issuer, m.holder, m.index, m.at);
       && response.Ok?
       && var verified := Mdoc.VerifyDeviceResponse(issuer.mdocLib, response.value, expected, anchors, now);
          && (verified.Ok? <==> && MdocPresentation.TrustedNow(issuer.mdocLib, req, issuer.coseKey, anchors, now)
                                && KeyOf(issuer.mdocLib.codec, m.holder) == Some(device) && presented == expected)
          && (verified.Ok? ==>
                && |verified.value| == 1
                && verified.value[0].deviceKey == PublicPart(m.holder)
                && verified.value[0].status == Some(Mdoc.StatusRef(m.index, issuer.mdocStatusUri))
                && verified.value[0].docType == MDL_DOCTYPE
                && LicencePeriod(verified.value[0].validity, m.at * 1_000_000, issuer.mdocSigner.value.notAfter)
                && verified.value[0].claims == MdocPresentation.Restrict(issuer.mdocLib, req.namespaces, disclose)
                && ShowsLicence(issuer, issuer.mdocSigner.value.country.value,
                                MdocIssuance.StartOfDay(m.at * 1_000_000), disclose, verified.value[0].claims))
  }

  lemma MdocVerifies(issuer: Issuer, config: Configuration, m: Made, disclose: MdocPresentation.Disclosed,
                     presented: Value, expected: Value,
                     device: PublicKey, anchors: seq<ByteString>, now: int)
    requires Genuine(issuer, config, m) && config.format != SD_JWT_FORMAT && 0 <= m.at < LAST_ISSUANCE
    requires Mdoc.DatesReadBack(issuer.mdocLib)
    ensures m.credential.MdocCredential?
    ensures MdocSays(issuer, m, m.credential.issuerSigned, disclose, presented, expected, device, anchors, now)
  {
    hide Mdoc.Issuable, MdocTheorems.Printable, MdocPresentation.WellIssued, Mdoc.Issued, Mdoc.Present,
         Mdoc.VerifyDeviceResponse, Mdoc.DatesReadBack,
         MdocPresentation.TrustedNow, MdocPresentation.Restrict, KeyOf, PublicPart, Mdoc.Period, Signed,
         LotFits, LicencePeriod, ShowsLicence, SaltedElements, Elements, MdocIssuance.StartOfDay, MdocIssuance.Until;
    OrdinaryMdoc(issuer, config, m);
    LicenceSalted(issuer, config, m);
    PeriodOfLicence(issuer, m.holder, m.index, m.at);
    RestrictShows(issuer, issuer.mdocSigner.value.country.value, MdocIssuance.StartOfDay(Nanos(m.at)), disclose);
    MdocPresentation.PresentedExactly(issuer.mdocLib, LicenceRequest(issuer, m.holder, m.index, m.at), m.lot.draws,
                                      issuer.coseKey,
                                      disclose, presented, expected, device, anchors, now);
  }
}
