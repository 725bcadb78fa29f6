/** What the credential endpoint issues: for each holder key a signed credential with its own status index. */
module CredentialIssuance {
  import opened Wrappers
  import opened Text
  import opened Base64
  import opened Jws
  import opened RandomDraw
  import opened Authorization
  import opened StatusManagers
  import opened StatusRuns
  import opened Cose
  import Credentials
  import Mdoc
  import MdocIssuance
  import MdocPresentation
  import SdJwt
  import SdJwtTheorems

  datatype CredentialError =
    | InvalidAccessToken | InvalidCredentialRequest | UnknownCredentialConfiguration | UnknownCredentialIdentifier
    | InvalidProof | InvalidNonce | UnsupportedFormat | IssuanceError

  /** The document signer's certificate: its bytes, the country of its subject and when it ends. */
  datatype MdocSigner = MdocSigner(certificate: ByteString, country: Option<string>, notAfter: int)

  /** What the credential endpoint works with. One key signs both formats: `key` is its JWK and
      `coseKey` the same key as COSE sees it. `licence` gives the licence data by element name and day. */
  datatype Issuer = Issuer(
    lib: Jws.Library, issuerUrl: string, metadata: Metadata,
    key: Jwk, kid: string, x5c: Option<seq<string>>, statusUri: string,
    mdocLib: Mdoc.Library, coseKey: PublicKey, mdocSigner: Option<MdocSigner>, mdocStatusUri: string,
    licence: (string, int) -> Value)

  /** A credential as issued. An mdoc travels as the base64url text of its bytes. */
  datatype Credential = SdJwtVcCredential(text: string) | MdocCredential(issuerSigned: ByteString)

  const SD_JWT_FORMAT: string := "dc+sd-jwt"
  const MDOC_FORMAT: string := "mso_mdoc"
  const MDL_DOCTYPE: string := "org.iso.18013.5.1.mDL"
  const MDL_NAMESPACE: string := "org.iso.18013.5.1"

  /** The two clocks behind the protocol's milliseconds. */
  function Seconds(ms: int): int {
    ms / 1000
  }

  function Nanos(ms: int): int {
    ms * 1_000_000
  }

  // ---- SD-JWT VC ---------------------------------------------------------------------------------

  /** The demo subject. */
  const SUBJECT: map<string, Json> :=
    map["given_name" := Str("John"), "family_name" := Str("Doe"), "birth_date" := Str("1990-01-01")]

  /** The subject's claims in an order a hash map may give them. */
  ghost predicate Visits(visit: seq<(string, Json)>) {
    && SdJwt.DistinctNames(visit)
    && (forall i :: 0 <= i < |visit| ==> visit[i].0 in SUBJECT && SUBJECT[visit[i].0] == visit[i].1)
    && (forall name :: name in SUBJECT ==> exists i :: 0 <= i < |visit| && visit[i].0 == name)
  }

  /** The claim that makes a credential the holder's. */
  function Cnf(holder: Jwk): Json {
    Obj(map["jwk" := JwkJson(holder)])
  }

  function StatusClaim(index: nat, uri: string): Json {
    Obj(map["status_list" := Obj(map["idx" := Num(index), "uri" := Str(uri)])])
  }

  function VcRequest(issuer: Issuer, vct: string, holder: Jwk, index: nat, visit: seq<(string, Json)>)
    : SdJwt.IssueRequest
  {
    SdJwt.IssueRequest(issuer.issuerUrl, vct, map[], visit, Some(Cnf(holder)),
                       Some(StatusClaim(index, issuer.statusUri)), issuer.x5c)
  }

  // ---- mdoc ----------------------------------------------------------------------------------------

  const MDL_ELEMENTS: seq<string> := [
    "family_name", "given_name", "birth_date", "issue_date", "expiry_date", "issuing_country", "issuing_authority",
    "document_number", "portrait", "driving_privileges", "un_distinguishing_sign", "age_over_18", "age_over_21"]

  /** The licence's data elements; two of them are the certificate's country. */
  function Elements(issuer: Issuer, country: string, today: int): (es: seq<Mdoc.Element>)
    ensures |es| == |MDL_ELEMENTS|
    ensures forall i :: 0 <= i < |es| ==> es[i].identifier == MDL_ELEMENTS[i]
  {
    seq(|MDL_ELEMENTS|, i requires 0 <= i < |MDL_ELEMENTS| =>
      Mdoc.Element(MDL_ELEMENTS[i],
                   if i == 5 || i == 10 then Value.Text(country) else issuer.licence(MDL_ELEMENTS[i], today)))
  }

  lemma ElementsDistinct(issuer: Issuer, country: string, today: int)
    ensures MdocPresentation.DistinctIdentifiers(Elements(issuer, country, today))
  {
    hide Elements;
    forall i, j | 0 <= i < j < |MDL_ELEMENTS| ensures MDL_ELEMENTS[i] != MDL_ELEMENTS[j] {
      NamesDiffer(i, j);
    }
  }

  /** Length, first character and the ninth tell the names apart. */
  lemma NamesDiffer(i: nat, j: nat)
    requires i < j < |MDL_ELEMENTS|
    ensures MDL_ELEMENTS[i] != MDL_ELEMENTS[j]
  {
    assert |"given_name"| == |"birth_date"| == |"issue_date"| == 10;
    assert |"family_name"| == |"expiry_date"| == |"age_over_18"| == |"age_over_21"| == 11;
    assert |"issuing_country"| == |"document_number"| == 15 && |"issuing_authority"| == 17 && |"portrait"| == 8;
    assert |"driving_privileges"| == 18 && |"un_distinguishing_sign"| == 22;
    assert "given_name"[0] == 'g' && "birth_date"[0] == 'b' && "issue_date"[0] == 'i';
    assert "family_name"[0] == 'f' && "expiry_date"[0] == 'e' && "age_over_18"[0] == "age_over_21"[0] == 'a';
    assert "age_over_18"[9] == '1' && "age_over_21"[9] == '2';
    assert "issuing_country"[0] == 'i' && "document_number"[0] == 'd';
  }

  function MdlRequest(issuer: Issuer, signer: MdocSigner, country: string, holder: Jwk, index: nat, now: int)
    : Mdoc.IssueRequest
  {
    MdocIssuance.MdocRequest(
      MDL_DOCTYPE, [Mdoc.Namespace(MDL_NAMESPACE, Elements(issuer, country, MdocIssuance.StartOfDay(Nanos(now))))],
      holder, Nanos(now), signer.notAfter, Some(Mdoc.StatusRef(index, issuer.mdocStatusUri)), signer.certificate)
  }

  // ---- One credential --------------------------------------------------------------------------------

  /** Why a configuration is refused before any status index is drawn. */
  function Refusal(issuer: Issuer, config: Configuration): Option<CredentialError> {
    if config.format == SD_JWT_FORMAT then (if config.vct.None? then Some(IssuanceError) else None)
    else if config.format == MDOC_FORMAT then
      if issuer.mdocSigner.None? then Some(IssuanceError)
      else if (if config.doctype.Some? then config.doctype.value else "") != MDL_DOCTYPE then Some(UnsupportedFormat)
      else if issuer.mdocSigner.value.country.None? then Some(IssuanceError)
      else None
    else Some(UnsupportedFormat)
  }

  /** The two kinds of configuration credentials are issued for. */
  ghost predicate CanIssue(issuer: Issuer, config: Configuration) {
    || (config.format == "dc+sd-jwt" && config.vct.Some?)
    || (config.format == "mso_mdoc" && config.doctype == Some("org.iso.18013.5.1.mDL")
        && issuer.mdocSigner.Some? && issuer.mdocSigner.value.country.Some?)
  }

  lemma RefusedIff(issuer: Issuer, config: Configuration)
    ensures Refusal(issuer, config).None? <==> CanIssue(issuer, config)
    ensures Refusal(issuer, config) == Some(UnsupportedFormat) <==>
            || (config.format != "dc+sd-jwt" && config.format != "mso_mdoc")
            || (config.format == "mso_mdoc" && issuer.mdocSigner.Some?
                && config.doctype != Some("org.iso.18013.5.1.mDL"))
  {
    assert "dc+sd-jwt"[0] != "mso_mdoc"[0];
  }

  /** The status list credentials of a configuration have their indices in. */
  function ListOf(config: Configuration): ListName {
    if config.format == SD_JWT_FORMAT then ListName.Credential(Revocation) else ListName.Mdoc
  }

  /** What is drawn for one credential beside its status index. */
  datatype Lot = SdJwtLot(visit: seq<(string, Json)>, salts: seq<seq<byte>>) | MdocLot(draws: seq<seq<Mdoc.Draw>>)

  function LicenceRequest(issuer: Issuer, holder: Jwk, index: nat, now: int): Mdoc.IssueRequest
    requires issuer.mdocSigner.Some? && issuer.mdocSigner.value.country.Some?
  {
    MdlRequest(issuer, issuer.mdocSigner.value, issuer.mdocSigner.value.country.value, holder, index, now)
  }

  ghost predicate LotFits(issuer: Issuer, config: Configuration, holder: Jwk, index: nat, lot: Lot, now: int)
    requires Refusal(issuer, config).None?
  {
    if config.format == SD_JWT_FORMAT then
      lot.SdJwtLot? && Visits(lot.visit) && |lot.salts| == |lot.visit| && LongSalts(lot.salts, SdJwt.SALT_LENGTH)
    else
      var req := LicenceRequest(issuer, holder, index, now);
      lot.MdocLot? && (Mdoc.Issuable(req) ==> MdocPresentation.WellIssued(req, lot.draws) && LongDraws(lot.draws))
  }

  ghost predicate LongSalts(salts: seq<seq<byte>>, length: nat) {
    forall i :: 0 <= i < |salts| ==> |salts[i]| == length
  }

  ghost predicate LongDraws(draws: seq<seq<Mdoc.Draw>>) {
    forall i, j :: 0 <= i < |draws| && 0 <= j < |draws[i]| ==> |draws[i][j].salt| == Mdoc.SALT_LENGTH
  }

  /** The issuance behind an SD-JWT VC. */
  function IssuanceOf(issuer: Issuer, vct: string, holder: Jwk, index: nat, lot: Lot, now: int): SdJwtTheorems.Issuance
    requires lot.SdJwtLot?
  {
    SdJwtTheorems.Issuance(issuer.key, issuer.kid, VcRequest(issuer, vct, holder, index, lot.visit), lot.salts,
                           Seconds(now))
  }

  function VcText(lib: Jws.Library, i: SdJwtTheorems.Issuance): string
    requires |i.salts| == |i.req.disclosable|
  {
    var all := SdJwt.EncodedForms(SdJwtTheorems.DisclosuresOf(lib, i));
    Credentials.Compact(SdJwtTheorems.Presentation(lib, i, all, None))
  }

  /** The credential for a holder key and a status index, or why there is none. */
  ghost function Signed(issuer: Issuer, config: Configuration, holder: Jwk, index: nat, lot: Lot, now: int)
    : Result<Credential, CredentialError>
    requires Refusal(issuer, config).None? && LotFits(issuer, config, holder, index, lot, now)
  {
    if config.format == SD_JWT_FORMAT then
      Ok(SdJwtVcCredential(VcText(issuer.lib, IssuanceOf(issuer, config.vct.value, holder, index, lot, now))))
    else
      var req := LicenceRequest(issuer, holder, index, now);
      if Mdoc.Issuable(req) then Ok(MdocCredential(Mdoc.Issued(issuer.mdocLib, req, issuer.coseKey, lot.draws)))
      else Err(IssuanceError)
  }

  // ---- Drawing a status index ---------------------------------------------------------------------------

  predicate CanDraw(m: ManagerModel, list: ListName, drawn: Option<nat>) {
    match drawn
    case Some(i) => i < LIST_CAPACITY && i !in Taken(m, list)
    case None => |Taken(m, list)| >= LIST_CAPACITY
  }

  function AfterDraw(m: ManagerModel, list: ListName, drawn: Option<nat>): ManagerModel {
    match (drawn, list)
    case (None, _) => m
    case (Some(i), Credential(purpose)) => m.With(purpose, m.List(purpose).(taken := m.List(purpose).taken + {i}))
    case (Some(i), Mdoc) => m.(mdoc := m.mdoc.(taken := m.mdoc.taken + {i}))
  }

  lemma DrawIsNext(m: ManagerModel, list: ListName, drawn: Option<nat>, m': ManagerModel)
    requires Sized(m)
    ensures Next(m, AllocateOn(list, drawn), m') <==> CanDraw(m, list, drawn) && m' == AfterDraw(m, list, drawn)
  {
  }

  /** One try at a credential: the index drawn, if there was one, and the rest that was drawn. */
  datatype Attempt = Attempt(drawn: Option<nat>, lot: Lot)

  ghost predicate LotOk(issuer: Issuer, config: Configuration, holder: Jwk, a: Attempt, now: int) {
    Refusal(issuer, config).None? && a.drawn.Some? ==> LotFits(issuer, config, holder, a.drawn.value, a.lot, now)
  }

  ghost predicate Possible(issuer: Issuer, config: Configuration, holder: Jwk, m: ManagerModel, a: Attempt, now: int) {
    && LotOk(issuer, config, holder, a, now)
    && (Refusal(issuer, config).None? ==> CanDraw(m, ListOf(config), a.drawn))
  }

  ghost function Outcome(issuer: Issuer, config: Configuration, holder: Jwk, a: Attempt, now: int)
    : Result<Credential, CredentialError>
    requires LotOk(issuer, config, holder, a, now)
  {
    match (Refusal(issuer, config), a.drawn)
    case (Some(e), _) => Err(e)
    case (None, None) => Err(IssuanceError)
    case (None, Some(index)) => Signed(issuer, config, holder, index, a.lot, now)
  }

  /** The status manager afterwards: an index is spent even on a credential that then fails. */
  function AfterAttempt(issuer: Issuer, config: Configuration, m: ManagerModel, a: Attempt): ManagerModel {
    if Refusal(issuer, config).Some? then m else AfterDraw(m, ListOf(config), a.drawn)
  }

  /** The random sources behind one credential, and the order its claims are visited in. */
  datatype Chance = Chance(index: nat -> nat, ids: nat -> nat, mdocSalt: nat -> seq<byte>,
                           visit: seq<(string, Json)>, salts: seq<seq<byte>>)

  ghost predicate Fine(c: Chance) {
    && Fair(c.index, LIST_CAPACITY) && Fair(c.ids, Mdoc.ID_BOUND)
    && Visits(c.visit) && |c.salts| == |c.visit| && LongSalts(c.salts, SdJwt.SALT_LENGTH)
    && forall k :: |c.mdocSalt(k)| == Mdoc.SALT_LENGTH
  }

  /** What a try drew it drew from these sources: the salts of its disclosures in order, or those of its
      data elements, each at a position of its own. */
  ghost predicate DrawnFrom(c: Chance, a: Attempt) {
    match a.lot
    case SdJwtLot(visit, salts) => visit == c.visit && salts == c.salts
    case MdocLot(draws) => exists places :: Mdoc.AllSalted(draws, places, c.mdocSalt)
  }

  lemma NothingDrawnYet(c: Chance)
    ensures DrawnFrom(c, Attempt(None, MdocLot([])))
  {
    Mdoc.NothingSalted(c.mdocSalt);
  }

  lemma SaltsAreLong(draws: seq<seq<Mdoc.Draw>>, places: seq<seq<nat>>, c: Chance)
    requires Fine(c) && Mdoc.AllSalted(draws, places, c.mdocSalt)
    ensures LongDraws(draws)
  {
    hide Fair, Visits;
  }

  /** The manager names the index in decimal, and the credential carries it as a number again. */
  method AllocateStatus(manager: StatusManager, draw: nat -> nat) returns (r: Option<nat>)
    requires manager.Valid() && Fair(draw, LIST_CAPACITY)
    modifies manager.Repr()
    ensures manager.Valid()
    ensures Next(old(manager.Model()), AllocateOn(ListName.Credential(Revocation), r), manager.Model())
  {
    hide Decimal, ParseU64;
    var entry := manager.AllocateEntry(Revocation, draw, 0);
    if entry.Err? {
      return None;
    }
    var statusListIndex := Decimal(entry.value);
    DecimalRoundTrip(entry.value);
    var parsed := ParseU64(statusListIndex);
    assert parsed == Some(entry.value);
    r := Some(if parsed.Some? then parsed.value else 0);
  }

  lemma ShortNamespace(issuer: Issuer, holder: Jwk, index: nat, now: int)
    requires issuer.mdocSigner.Some? && issuer.mdocSigner.value.country.Some?
    ensures var req := LicenceRequest(issuer, holder, index, now);
            && |req.namespaces| == 1 && |req.namespaces[0].elements| == |MDL_ELEMENTS| <= Mdoc.ID_BOUND
            && Mdoc.DistinctNames(req.namespaces) && MdocPresentation.DistinctIdentifiers(req.namespaces[0].elements)
  {
    hide Elements;
    ElementsDistinct(issuer, issuer.mdocSigner.value.country.value, MdocIssuance.StartOfDay(Nanos(now)));
  }

  /** Without an index there is no credential, for whatever reason there is none. */
  lemma NoIndexOutcome(issuer: Issuer, config: Configuration, holder: Jwk, lot: Lot, now: int)
    ensures var a := Attempt(None, lot);
            && LotOk(issuer, config, holder, a, now)
            && Outcome(issuer, config, holder, a, now)
               == Err(if Refusal(issuer, config).Some? then Refusal(issuer, config).value else IssuanceError)
  {
    hide Refusal;
  }

  /** A licence as issued, or the refusal to issue it, is what the try comes to. */
  lemma LicenceIsOutcome(issuer: Issuer, config: Configuration, holder: Jwk, index: nat, now: int, chance: Chance,
                         issuerSigned: Result<ByteString, Mdoc.MdocError>, draws: seq<seq<Mdoc.Draw>>,
                         places: seq<seq<nat>>)
    requires config.format == MDOC_FORMAT && Refusal(issuer, config).None?
    requires Fine(chance) && Mdoc.AllSalted(draws, places, chance.mdocSalt)
    requires var req := LicenceRequest(issuer, holder, index, now);
             && (issuerSigned.Ok? <==> Mdoc.Issuable(req))
             && (issuerSigned.Ok? ==>
                  && Mdoc.Fits(req.namespaces, draws)
                  && (forall i :: 0 <= i < |draws| ==> Mdoc.DistinctIds(draws[i]))
                  && issuerSigned == Ok(Mdoc.Issued(issuer.mdocLib, req, issuer.coseKey, draws)))
    ensures var a := Attempt(Some(index), MdocLot(draws));
            && DrawnFrom(chance, a) && LotOk(issuer, config, holder, a, now)
            && Outcome(issuer, config, holder, a, now)
               == if issuerSigned.Ok? then Ok(MdocCredential(issuerSigned.value)) else Err(IssuanceError)
  {
    hide Fine, Mdoc.AllSalted, LongDraws, LicenceRequest, Mdoc.Issuable, Mdoc.Issued, Mdoc.DistinctIds,
         MdocPresentation.DistinctIdentifiers, Mdoc.DistinctNames;
    ShortNamespace(issuer, holder, index, now);
    SaltsAreLong(draws, places, chance);
  }

  method IssueSdJwtCredential(issuer: Issuer, config: Configuration, holder: Jwk, manager: StatusManager,
                              chance: Chance, now: int)
    returns (r: Result<Credential, CredentialError>, ghost a: Attempt)
    requires manager.Valid() && Fine(chance) && config.format == SD_JWT_FORMAT
    modifies manager.Repr()
    ensures manager.Valid() && Possible(issuer, config, holder, old(manager.Model()), a, now)
    ensures DrawnFrom(chance, a)
    ensures r == Outcome(issuer, config, holder, a, now)
    ensures manager.Model() == AfterAttempt(issuer, config, old(manager.Model()), a)
  {
    hide Visits, Fair, StatusClaim, Cnf, SdJwt.NewDisclosures, SdJwt.IssuerJwt, Credentials.Compact, AfterDraw, Next,
         CanDraw, StatusManager.Model;
    a := Attempt(None, SdJwtLot(chance.visit, chance.salts));
    if config.vct.None? {
      return Err(IssuanceError), a;
    }
    ghost var before := manager.Model();
    var index := AllocateStatus(manager, chance.index);
    DrawIsNext(before, ListOf(config), index, manager.Model());
    a := a.(drawn := index);
    if index.None? {
      return Err(IssuanceError), a;
    }
    var req := VcRequest(issuer, config.vct.value, holder, index.value, chance.visit);
    var compact, disclosures := SdJwt.IssueSdJwtVc(issuer.lib, issuer.key, issuer.kid, req, chance.salts, Seconds(now));
    ghost var i := IssuanceOf(issuer, config.vct.value, holder, index.value, a.lot, now);
    assert i.req == req && disclosures == SdJwtTheorems.DisclosuresOf(issuer.lib, i);
    assert compact == VcText(issuer.lib, i);
    r := Ok(SdJwtVcCredential(compact));
  }

  method IssueMdocCredential(issuer: Issuer, config: Configuration, holder: Jwk, manager: StatusManager, chance: Chance,
                             now: int)
    returns (r: Result<Credential, CredentialError>, ghost a: Attempt)
    requires manager.Valid() && Fine(chance) && config.format == MDOC_FORMAT
    modifies manager.Repr()
    ensures manager.Valid() && Possible(issuer, config, holder, old(manager.Model()), a, now)
    ensures DrawnFrom(chance, a)
    ensures r == Outcome(issuer, config, holder, a, now)
    ensures manager.Model() == AfterAttempt(issuer, config, old(manager.Model()), a)
  {
    hide Visits, Fair, MdlRequest, AfterDraw, Next, CanDraw, StatusManager.Model, StatusManager.Valid, Mdoc.Issuable,
         Mdoc.Issued, Mdoc.Period, Mdoc.AllSalted, LongDraws, LotFits, LotOk, Outcome, DrawnFrom, Mdoc.Fits,
         Mdoc.DistinctIds, Mdoc.DistinctNames, MdocPresentation.DistinctIdentifiers;
    a := Attempt(None, MdocLot([]));
    NothingDrawnYet(chance);
    NoIndexOutcome(issuer, config, holder, a.lot, now);
    if issuer.mdocSigner.None? {
      return Err(IssuanceError), a;
    }
    var docType := if config.doctype.Some? then config.doctype.value else "";
    if docType != MDL_DOCTYPE {
      return Err(UnsupportedFormat), a;
    }
    if issuer.mdocSigner.value.country.None? {
      return Err(IssuanceError), a;
    }
    ghost var before := manager.Model();
    var index := manager.AllocateMdocIndex(chance.index, 0);
    DrawIsNext(before, ListOf(config), if index.Ok? then Some(index.value) else None, manager.Model());
    if index.Err? {
      return Err(IssuanceError), a;
    }
    var req := LicenceRequest(issuer, holder, index.value, now);
    ShortNamespace(issuer, holder, index.value, now);
    var issuerSigned, draws, places := Mdoc.Issue(issuer.mdocLib, req, issuer.coseKey, chance.ids, chance.mdocSalt);
    a := Attempt(Some(index.value), MdocLot(draws));
    LicenceIsOutcome(issuer, config, holder, index.value, now, chance, issuerSigned, draws, places);
    r := if issuerSigned.Ok? then Ok(MdocCredential(issuerSigned.value)) else Err(IssuanceError);
  }

  /** One credential for one holder key, in the configuration's format. */
  method IssueCredential(issuer: Issuer, config: Configuration, holder: Jwk, manager: StatusManager, chance: Chance,
                         now: int)
    returns (r: Result<Credential, CredentialError>, ghost a: Attempt)
    requires manager.Valid() && Fine(chance)
    modifies manager.Repr()
    ensures manager.Valid() && Possible(issuer, config, holder, old(manager.Model()), a, now)
    ensures DrawnFrom(chance, a)
    ensures r == Outcome(issuer, config, holder, a, now)
    ensures manager.Model() == AfterAttempt(issuer, config, old(manager.Model()), a)
  {
    hide Fine, DrawnFrom, StatusManager.Model, StatusManager.Valid, LotFits, CanDraw, AfterDraw, Signed;
    if config.format == SD_JWT_FORMAT {
      r, a := IssueSdJwtCredential(issuer, config, holder, manager, chance, now);
    } else if config.format == MDOC_FORMAT {
      r, a := IssueMdocCredential(issuer, config, holder, manager, chance, now);
    } else {
      r, a := Err(UnsupportedFormat), Attempt(None, MdocLot([]));
      NothingDrawnYet(chance);
    }
  }

  // ---- All the credentials of a request ------------------------------------------------------------------

  /** A credential that was issued, and everything it was made from. */
  datatype Made = Made(holder: Jwk, index: nat, lot: Lot, at: int, credential: Credential)

  function CredentialsOf(made: seq<Made>): (credentials: seq<Credential>)
    ensures |credentials| == |made| && forall i :: 0 <= i < |made| ==> credentials[i] == made[i].credential
  {
    seq(|made|, i requires 0 <= i < |made| => made[i].credential)
  }

  /** Tries for the first keys in turn, each possible after the ones before it, all of which succeeded. */
  ghost predicate Tried(issuer: Issuer, config: Configuration, keys: seq<Jwk>, m: ManagerModel, attempts: seq<Attempt>,
                        now: int)
    decreases |attempts|, 0
  {
    attempts == [] ||
    (&& |attempts| <= |keys|
     && var n := |attempts| - 1;
        && Tried(issuer, config, keys, m, attempts[..n], now)
        && Series(issuer, config, keys, m, attempts[..n], now).0.Ok?
        && Possible(issuer, config, keys[n], Series(issuer, config, keys, m, attempts[..n], now).1, attempts[n], now))
  }

  /** What the tries come to, and the status manager after them. */
  ghost function Series(issuer: Issuer, config: Configuration, keys: seq<Jwk>, m: ManagerModel, attempts: seq<Attempt>,
                        now: int)
    : (Result<seq<Made>, CredentialError>, ManagerModel)
    requires Tried(issuer, config, keys, m, attempts, now)
    decreases |attempts|, 1
  {
    if attempts == [] then (Ok([]), m)
    else
      var n := |attempts| - 1;
      var (before, m1) := Series(issuer, config, keys, m, attempts[..n], now);
      var after := AfterAttempt(issuer, config, m1, attempts[n]);
      match Outcome(issuer, config, keys[n], attempts[n], now)
      case Err(e) => (Err(e), after)
      case Ok(c) => (Ok(before.value + [MadeBy(issuer, config, keys[n], attempts[n], now, c)]), after)
  }

  /** The record of a try that succeeded. */
  function MadeBy(issuer: Issuer, config: Configuration, holder: Jwk, a: Attempt, now: int, credential: Credential)
    : Made
  {
    Made(holder, if a.drawn.Some? then a.drawn.value else 0, a.lot, now, credential)
  }

  lemma OneMore(issuer: Issuer, config: Configuration, keys: seq<Jwk>, m: ManagerModel, attempts: seq<Attempt>,
                a: Attempt, now: int)
    requires |attempts| < |keys| && Tried(issuer, config, keys, m, attempts, now)
    requires var (made, m1) := Series(issuer, config, keys, m, attempts, now);
             made.Ok? && Possible(issuer, config, keys[|attempts|], m1, a, now)
    ensures var (made, m1) := Series(issuer, config, keys, m, attempts, now);
            && Tried(issuer, config, keys, m, attempts + [a], now)
            && Series(issuer, config, keys, m, attempts + [a], now)
            == ((match Outcome(issuer, config, keys[|attempts|], a, now)
                 case Err(e) => Err(e)
                 case Ok(c) => Ok(made.value + [MadeBy(issuer, config, keys[|attempts|], a, now, c)])),
                AfterAttempt(issuer, config, m1, a))
  {
    hide Possible, Outcome, AfterAttempt;
    assert (attempts + [a])[..|attempts|] == attempts;
  }

  /** One credential for each key in order, up to the first that fails. */
  method IssueCredentials(issuer: Issuer, config: Configuration, keys: seq<Jwk>, manager: StatusManager,
                          chances: nat -> Chance, now: int)
    returns (r: Result<seq<Credential>, CredentialError>, ghost attempts: seq<Attempt>)
    requires manager.Valid() && forall k :: Fine(chances(k))
    modifies manager.Repr()
    ensures manager.Valid() && Tried(issuer, config, keys, old(manager.Model()), attempts, now)
    ensures forall k :: 0 <= k < |attempts| ==> DrawnFrom(chances(k), attempts[k])
    ensures var (made, after) := Series(issuer, config, keys, old(manager.Model()), attempts, now);
            && manager.Model() == after
            && r == (match made case Ok(all) => Ok(CredentialsOf(all)) case Err(e) => Err(e))
    ensures r.Ok? ==> |attempts| == |keys|
  {
    hide Fine, DrawnFrom, StatusManager.Model, StatusManager.Valid, Possible, Outcome, AfterAttempt, LotOk;
    var credentials: seq<Credential> := [];
    attempts := [];
    ghost var before := manager.Model();
    assert Tried(issuer, config, keys, before, [], now);
    assert Series(issuer, config, keys, before, [], now) == (Ok([]), before);
    hide Tried, Series;
    for k := 0 to |keys|
      invariant manager.Valid() && |attempts| == |credentials| == k
      invariant Tried(issuer, config, keys, before, attempts, now)
      invariant forall i :: 0 <= i < k ==> DrawnFrom(chances(i), attempts[i])
      invariant var (made, after) := Series(issuer, config, keys, before, attempts, now);
                made.Ok? && manager.Model() == after && credentials == CredentialsOf(made.value)
    {
      var credential, a := IssueCredential(issuer, config, keys[k], manager, chances(k), now);
      OneMore(issuer, config, keys, before, attempts, a, now);
      attempts := attempts + [a];
      if credential.Err? {
        return Err(credential.error), attempts;
      }
      credentials := credentials + [credential.value];
    }
    r := Ok(credentials);
  }
}
