/** The credential endpoint: what a token covers, proofs of possession, nonces, and one credential per proof. */
module CredentialEndpoint {
  import opened Wrappers
  import opened Text
  import opened IssuerStore
  import opened Authorization
  import opened CredentialIssuance
  import opened Jws
  import opened ReplayCache
  import opened StatusManagers
  import opened TokenEndpoint

  datatype Proofs = Proofs(jwt: Option<seq<string>>, other: set<string>)

  /** `proof`: the request carries the parameter that OID4VCI 1.0 removed. */
  datatype CredentialRequest = CredentialRequest(identifier: Option<string>, configId: Option<string>, proof: bool,
                                                 proofs: Option<Proofs>)

  /** The JWTs a request carries as proofs. */
  function ProofsOf(request: CredentialRequest): seq<string> {
    if request.proofs.Some? && request.proofs.value.jwt.Some? then request.proofs.value.jwt.value else []
  }

  const PROOF_MAX_AGE: int := 300

  // ---- What the token covers ------------------------------------------------------------------

  /** The configuration a request names, when the grant covers it. */
  function ResolveConfiguration(request: CredentialRequest, grant: Grant, metadata: Metadata)
    : Result<string, CredentialError>
  {
    var configId :-
      match (request.identifier, request.configId)
      case (Some(_), Some(_)) => Err(InvalidCredentialRequest)
      case (None, None) => Err(InvalidCredentialRequest)
      case (Some(identifier), None) =>
        if identifier in grant.identifiers then Ok(grant.identifiers[identifier]) else Err(UnknownCredentialIdentifier)
      case (None, Some(id)) =>
        if id in metadata.supported && grant.identifiers != map[] then Err(InvalidCredentialRequest) else Ok(id);
    if configId !in metadata.supported then Err(UnknownCredentialConfiguration)
    else if configId !in grant.configIds then Err(UnknownCredentialConfiguration)
    else Ok(configId)
  }

  /** A request resolves to a configuration iff it names it, alone and in the way its grant calls for: by
      an identifier of the grant if the grant has identifiers, by its id otherwise. */
  lemma ResolvesIff(request: CredentialRequest, grant: Grant, metadata: Metadata, configId: string)
    ensures ResolveConfiguration(request, grant, metadata) == Ok(configId) <==>
            && configId in metadata.supported && configId in grant.configIds
            && (|| (request.configId == None && request.identifier.Some?
                    && request.identifier.value in grant.identifiers
                    && grant.identifiers[request.identifier.value] == configId)
                || (request.identifier == None && request.configId == Some(configId) && grant.identifiers == map[]))
    ensures ResolveConfiguration(request, grant, metadata) == Err(InvalidCredentialRequest) <==>
            || (request.identifier.Some? == request.configId.Some?)
            || (request.configId.Some? && request.configId.value in metadata.supported && grant.identifiers != map[])
    ensures ResolveConfiguration(request, grant, metadata) == Err(UnknownCredentialIdentifier) <==>
            && request.configId.None? && request.identifier.Some? && request.identifier.value !in grant.identifiers
  {
  }

  function ByIdentifier(identifier: string): CredentialRequest {
    CredentialRequest(Some(identifier), None, false, None)
  }

  function ByConfiguration(configId: string): CredentialRequest {
    CredentialRequest(None, Some(configId), false, None)
  }

  ghost predicate Supported(ids: seq<string>, metadata: Metadata) {
    forall i :: 0 <= i < |ids| ==> ids[i] in metadata.supported
  }

  /** The response lists an identifier for a configuration. */
  ghost predicate Listed(details: seq<AuthorizedDetail>, identifier: string, configId: string) {
    AuthorizedDetail(configId, identifier) in details
  }

  lemma TableLists(ids: seq<string>, uuid: nat -> string, x: string, configId: string)
    requires Distinct(uuid, |ids| + 1)
    ensures var details := DetailsOf(ids, uuid);
            && (x in Table(details) && Table(details)[x] == configId <==> Listed(details, x, configId))
            && (x in Table(details) ==> Table(details)[x] in ids)
  {
    hide Identifier, Distinct, Table;
    var details := DetailsOf(ids, uuid);
    DetailsDistinct(ids, uuid);
    TableOfDetails(details, x);
    if Listed(details, x, configId) {
      var i :| 0 <= i < |details| && details[i] == AuthorizedDetail(configId, x);
    }
    if x in Table(details) {
      var i :| 0 <= i < |details| && details[i].identifier == x;
      assert details[i] == AuthorizedDetail(Table(details)[x], x) && ids[i] in ids;
    }
  }

  lemma TableNotEmpty(details: seq<AuthorizedDetail>)
    requires details != []
    ensures Table(details) != map[]
  {
    assert details[|details| - 1].identifier in Table(details);
  }

  /** With authorization details: exactly the listed identifiers are accepted, each for the
      configuration beside it, and no configuration id is. */
  lemma DetailsAgree(ids: seq<string>, jkt: Option<string>, uuid: nat -> string, metadata: Metadata, x: string,
                     configId: string)
    requires ids != [] && Supported(ids, metadata) && Distinct(uuid, |ids| + 1)
    ensures var grant := MintedGrant(ids, true, jkt, uuid);
            var details := MintedResponse(ids, true, jkt, uuid).details.value;
            && (ResolveConfiguration(ByIdentifier(x), grant, metadata) == Ok(configId)
                <==> Listed(details, x, configId))
            && ResolveConfiguration(ByConfiguration(x), grant, metadata).Err?
            && |details| == |ids| && DistinctDetails(details)
  {
    hide Identifier, Distinct, Listed, Table, DistinctDetails;
    DetailsDistinct(ids, uuid);
    TableLists(ids, uuid, x, configId);
    TableNotEmpty(DetailsOf(ids, uuid));
  }

  /** Without them: exactly the granted configuration ids are accepted, and no identifier is. */
  lemma ConfigurationsAgree(ids: seq<string>, jkt: Option<string>, uuid: nat -> string, metadata: Metadata, x: string,
                            configId: string)
    requires Supported(ids, metadata)
    ensures var grant := MintedGrant(ids, false, jkt, uuid);
            && (ResolveConfiguration(ByConfiguration(x), grant, metadata) == Ok(configId)
                <==> x == configId && x in ids)
            && ResolveConfiguration(ByIdentifier(x), grant, metadata).Err?
            && MintedResponse(ids, false, jkt, uuid).details == None
  {
  }

  // ---- Proofs of possession --------------------------------------------------------------------

  predicate Advertised(config: Configuration, alg: string) {
    config.proofAlgs.Some? && alg in config.proofAlgs.value
  }

  function Abs(n: int): int {
    if n < 0 then -n else n
  }

  /** The holder key and nonce of a proof. */
  function VerifyProofJwt(issuer: Issuer, jwt: string, config: Configuration, now: int)
    : Result<(Jwk, string), CredentialError>
  {
    match DecodeCompact(issuer.lib, jwt)
    case Err(_) => Err(InvalidProof)
    case Ok(decoded) =>
      var h := decoded.header;
      if h.typ != Some("openid4vci-proof+jwt") || h.jwk.None? then Err(InvalidProof)
      else match AlgorithmForJwk(h.jwk.value)
        case None => Err(InvalidProof)
        case Some(expected) =>
          if h.alg != expected.Name() || !Advertised(config, h.alg) then Err(InvalidProof)
          else if !issuer.lib.verify(h.jwk.value, decoded.signingInput, decoded.signature) then Err(InvalidProof)
          else match issuer.lib.parseJson(decoded.payload)
            case None => Err(InvalidProof)
            case Some(payload) =>
              match (payload.GetStr("aud"), payload.GetInt("iat"))
              case (Some(aud), Some(iat)) =>
                if TrimEndChar(aud, '/') != TrimEndChar(issuer.issuerUrl, '/') then Err(InvalidProof)
                else if Abs(Timestamp(now) - iat) > PROOF_MAX_AGE then Err(InvalidProof)
                else (match payload.GetStr("nonce") case Some(nonce) => Ok((h.jwk.value,
                                                                            nonce)) case None => Err(InvalidNonce))
              case _ => Err(InvalidProof)
  }

  /** The key in the header of a proof. */
  function HeaderKey(issuer: Issuer, jwt: string): Option<Jwk> {
    match DecodeCompact(issuer.lib, jwt) case Ok(decoded) => decoded.header.jwk case Err(_) => None
  }

  /** The claims of a proof. */
  function ClaimsOf(issuer: Issuer, jwt: string): Option<Json> {
    match DecodeCompact(issuer.lib, jwt) case Ok(decoded) => issuer.lib.parseJson(decoded.payload) case Err(_) => None
  }

  /** The holder of the key in its header signed this proof, with the key's own algorithm, for this
      issuer, within 300 seconds of `at`. */
  ghost predicate SignedProof(issuer: Issuer, jwt: string, at: int) {
    && DecodeCompact(issuer.lib, jwt).Ok? && HeaderKey(issuer, jwt).Some? && ClaimsOf(issuer, jwt).Some?
    && var decoded := DecodeCompact(issuer.lib, jwt).value;
    && var key, claims := HeaderKey(issuer, jwt).value, ClaimsOf(issuer, jwt).value;
    && decoded.header.typ == Some("openid4vci-proof+jwt")
    && AlgorithmForJwk(key).Some? && decoded.header.alg == AlgorithmForJwk(key).value.Name()
    && issuer.lib.verify(key, decoded.signingInput, decoded.signature)
    && claims.GetStr("aud").Some?
    && TrimEndChar(claims.GetStr("aud").value, '/') == TrimEndChar(issuer.issuerUrl, '/')
    && claims.GetInt("iat").Some? && Timestamp(at) - 300 <= claims.GetInt("iat").value <= Timestamp(at) + 300
  }

  /** And with one of the nonces. */
  ghost predicate Proves(issuer: Issuer, jwt: string, key: Jwk, nonces: set<string>, at: int) {
    && SignedProof(issuer, jwt, at) && HeaderKey(issuer, jwt) == Some(key)
    && ClaimsOf(issuer, jwt).value.GetStr("nonce").Some? && ClaimsOf(issuer, jwt).value.GetStr("nonce").value in nonces
  }

  /** The algorithm a proof names is one the configuration advertises. */
  ghost predicate AlgorithmAllowed(issuer: Issuer, jwt: string, config: Configuration) {
    && config.proofAlgs.Some? && DecodeCompact(issuer.lib, jwt).Ok?
    && DecodeCompact(issuer.lib, jwt).value.header.alg in config.proofAlgs.value
  }

  /** A proof gives this key and nonce iff its holder made it with that nonce and an advertised
      algorithm; all that is missing is the nonce iff the error says so. */
  lemma ProofAcceptedIff(issuer: Issuer, jwt: string, config: Configuration, now: int, key: Jwk, nonce: string)
    ensures VerifyProofJwt(issuer, jwt, config, now) == Ok((key, nonce)) <==>
            Proves(issuer, jwt, key, {nonce}, now) && AlgorithmAllowed(issuer, jwt, config)
    ensures VerifyProofJwt(issuer, jwt, config, now) == Err(InvalidNonce) <==>
            && SignedProof(issuer, jwt, now) && AlgorithmAllowed(issuer, jwt, config)
            && ClaimsOf(issuer, jwt).value.GetStr("nonce").None?
    ensures var r := VerifyProofJwt(issuer, jwt, config, now);
            r.Ok? || r.error in {InvalidNonce, InvalidProof}
  {
    hide DecodeCompact, TrimEndChar;
  }

  lemma AcceptedProves(issuer: Issuer, jwt: string, config: Configuration, now: int)
    requires VerifyProofJwt(issuer, jwt, config, now).Ok?
    ensures var (key, nonce) := VerifyProofJwt(issuer, jwt, config, now).value;
            Proves(issuer, jwt, key, {nonce}, now)
  {
    hide VerifyProofJwt, Proves;
    var (key, nonce) := VerifyProofJwt(issuer, jwt, config, now).value;
    ProofAcceptedIff(issuer, jwt, config, now, key, nonce);
  }

  lemma ProvesAmongMore(issuer: Issuer, jwt: string, key: Jwk, nonces: set<string>, more: set<string>, at: int)
    requires Proves(issuer, jwt, key, nonces, at) && nonces <= more
    ensures Proves(issuer, jwt, key, more, at)
  {
    hide SignedProof;
  }

  /** Every proof in order: the holder keys and the nonces. */
  function VerifyProofs(issuer: Issuer, jwts: seq<string>, config: Configuration, now: int)
    : (r: Result<(seq<Jwk>, set<string>), CredentialError>)
    ensures r.Ok? ==> |r.value.0| == |jwts| && (jwts != [] ==> r.value.1 != {})
  {
    if jwts == [] then Ok(([], {}))
    else
      var (keys, nonces) :- VerifyProofs(issuer, jwts[..|jwts| - 1], config, now);
      var (key, nonce) :- VerifyProofJwt(issuer, jwts[|jwts| - 1], config, now);
      Ok((keys + [key], nonces + {nonce}))
  }

  /** The key taken from each proof is one whose holder made it, with one of the nonces taken. */
  lemma {:induction false} KeysOfProofs(issuer: Issuer, jwts: seq<string>, config: Configuration, now: int)
    requires VerifyProofs(issuer, jwts, config, now).Ok?
    ensures var (keys, nonces) := VerifyProofs(issuer, jwts, config, now).value;
            forall i :: 0 <= i < |jwts| ==> Proves(issuer, jwts[i], keys[i], nonces, now)
  {
    hide Proves, VerifyProofJwt;
    if jwts != [] {
      var init := jwts[..|jwts| - 1];
      KeysOfProofs(issuer, init, config, now);
      var (keys, nonces) := VerifyProofs(issuer, init, config, now).value;
      var all := VerifyProofs(issuer, jwts, config, now).value.1;
      forall i | 0 <= i < |init| ensures Proves(issuer, jwts[i], keys[i], all, now) {
        assert init[i] == jwts[i];
        ProvesAmongMore(issuer, jwts[i], keys[i], nonces, all, now);
      }
      AcceptedProves(issuer, jwts[|jwts| - 1], config, now);
      var (key, nonce) := VerifyProofJwt(issuer, jwts[|jwts| - 1], config, now).value;
      ProvesAmongMore(issuer, jwts[|jwts| - 1], key, {nonce}, all, now);
    }
  }

  /** All the proofs are good iff each is, and then the keys are theirs in order and the nonces are all of
      theirs and no others. */
  lemma {:induction false} AllProofsIff(issuer: Issuer, jwts: seq<string>, config: Configuration, now: int)
    ensures VerifyProofs(issuer, jwts, config, now).Ok? <==>
            forall i :: 0 <= i < |jwts| ==> VerifyProofJwt(issuer, jwts[i], config, now).Ok?
    ensures VerifyProofs(issuer, jwts, config, now).Ok? ==>
            var (keys, nonces) := VerifyProofs(issuer, jwts, config, now).value;
            && (forall i :: 0 <= i < |jwts| ==> keys[i] == VerifyProofJwt(issuer, jwts[i], config, now).value.0)
            && (forall n :: n in nonces <==>
                  exists i :: 0 <= i < |jwts| && VerifyProofJwt(issuer, jwts[i], config, now).value.1 == n)
  {
    hide VerifyProofJwt;
    if jwts != [] {
      var init := jwts[..|jwts| - 1];
      AllProofsIff(issuer, init, config, now);
      assert forall i :: 0 <= i < |init| ==> init[i] == jwts[i];
    }
  }

  /** The JWT proofs of a request: there are some when it has JWT proofs only, at least one and at most as
      many as a batch allows, and then all of them in order. */
  function RequestedProofs(request: CredentialRequest, metadata: Metadata): (r: Result<seq<string>, CredentialError>)
    ensures r.Ok? <==>
            && !request.proof && request.proofs.Some? && request.proofs.value.other == {}
            && request.proofs.value.jwt.Some? && request.proofs.value.jwt.value != []
            && |request.proofs.value.jwt.value| <= (if metadata.batchSize.Some? then metadata.batchSize.value else 1)
    ensures r.Ok? ==> r.value == request.proofs.value.jwt.value
    ensures r == Err(InvalidCredentialRequest) <==> request.proof
    ensures r.Err? && !request.proof ==> r == Err(InvalidProof)
  {
    if request.proof then Err(InvalidCredentialRequest)
    else if request.proofs.None? || request.proofs.value.other != {} || request.proofs.value.jwt.None? then
      Err(InvalidProof)
    else
      var jwts := request.proofs.value.jwt.value;
      var size := if metadata.batchSize.Some? then metadata.batchSize.value else 1;
      if jwts == [] || |jwts| > size then Err(InvalidProof) else Ok(jwts)
  }

  /** A request all of whose checks passed, before any nonce is consumed. */
  datatype Prepared = Prepared(request: CredentialRequest, configId: string, proofs: seq<string>, keys: seq<Jwk>,
                               nonces: set<string>)

  function Prepare(issuer: Issuer, request: CredentialRequest, grant: Grant, now: int)
    : Result<Prepared, CredentialError>
  {
    var configId :- ResolveConfiguration(request, grant, issuer.metadata);
    var jwts :- RequestedProofs(request, issuer.metadata);
    assert configId in issuer.metadata.supported;
    var (keys, nonces) :- VerifyProofs(issuer, jwts, issuer.metadata.supported[configId], now);
    Ok(Prepared(request, configId, jwts, keys, nonces))
  }

  // ---- The request as a whole ---------------------------------------------------------------------

  /** Nonces consumed one after the other: each once, all but perhaps the last valid. */
  ghost predicate InTurn(store: Store, order: seq<string>, now: int) {
    && (forall i, j :: 0 <= i < j < |order| ==> order[i] != order[j])
    && (forall i :: 0 <= i < |order| - 1 ==> store.NonceValid(order[i], now))
  }

  function Members(order: seq<string>): set<string> {
    set n | n in order
  }

  /** What a prepared request comes to, from a store in which its token was just looked up: the nonces
      are consumed in some order up to the first that is not valid, and only if all are valid are
      credentials tried for, one for each key. */
  ghost predicate Completes(issuer: Issuer, p: Prepared, store: Store, m: ManagerModel, order: seq<string>,
                            attempts: seq<Attempt>, now: int,
                            r: Result<seq<Credential>, CredentialError>, after: Store, m': ManagerModel) {
    && InTurn(store, order, now) && Members(order) <= p.nonces
    && after == store.(nonces := store.nonces - Members(order))
    && p.configId in issuer.metadata.supported
    && if exists n :: n in p.nonces && !store.NonceValid(n, now) then
         && order != [] && !store.NonceValid(order[|order| - 1], now)
         && r == Err(InvalidNonce) && attempts == [] && m' == m
       else
         && Members(order) == p.nonces
         && var config := issuer.metadata.supported[p.configId];
            && Tried(issuer, config, p.keys, m, attempts, now)
            && Series(issuer, config, p.keys, m, attempts, now).1 == m'
            && match Series(issuer, config, p.keys, m, attempts, now).0
               case Ok(made) => |attempts| == |p.keys| && r == Ok(CredentialsOf(made))
               case Err(e) => r == Err(e)
  }

  /** What a request comes to: a check that fails leaves nonces and status indices alone. */
  ghost predicate Handles(issuer: Issuer, request: CredentialRequest, token: string, store: Store, m: ManagerModel,
                          order: seq<string>, attempts: seq<Attempt>, now: int,
                          r: Result<seq<Credential>, CredentialError>, after: Store, m': ManagerModel) {
    var looked := store.AfterGrantAt(token, now);
    match store.GrantAt(token, now)
    case None => r == Err(InvalidAccessToken) && after == looked && m' == m
    case Some(grant) =>
      match Prepare(issuer, request, grant, now)
      case Err(e) => r == Err(e) && after == looked && m' == m
      case Ok(p) => Completes(issuer, p, looked, m, order, attempts, now, r, after, m')
  }

  /** Consume the nonces one by one, in any order, until one of them is not valid. */
  method ConsumeNonces(nonces: set<string>, state: InMemoryIssuerState, now: int)
    returns (valid: bool, ghost order: seq<string>)
    modifies state`nonces
    ensures InTurn(old(state.Contents()), order, now) && Members(order) <= nonces
    ensures state.Contents() == old(state.Contents()).(nonces := old(state.nonces) - Members(order))
    ensures valid <==> forall n :: n in nonces ==> old(state.Contents()).NonceValid(n, now)
    ensures if valid then Members(order) == nonces
            else order != [] && !old(state.Contents()).NonceValid(order[|order| - 1], now)
  {
    hide NumSeconds, AsUnsigned;
    order := [];
    ghost var before := state.Contents();
    var left := nonces;
    while left != {}
      invariant left <= nonces && Members(order) == nonces - left
      invariant state.Contents() == before.(nonces := before.nonces - Members(order))
      invariant InTurn(before, order, now) && forall n :: n in order ==> before.NonceValid(n, now)
      decreases left
    {
      var n :| n in left;
      left := left - {n};
      assert n !in Members(order);
      assert state.Contents().NonceValid(n, now) == before.NonceValid(n, now);
      var good := state.ConsumeCNonce(n, now);
      assert Members(order + [n]) == Members(order) + {n};
      order := order + [n];
      if !good {
        return false, order;
      }
    }
    forall n | n in nonces ensures before.NonceValid(n, now) {
      assert n in Members(order);
    }
    valid := true;
  }

  /** Consume the nonces of a prepared request, then issue its credentials. */
  method Complete(issuer: Issuer, p: Prepared, state: InMemoryIssuerState, manager: StatusManager,
                  chances: nat -> Chance, now: int)
    returns (r: Result<seq<Credential>, CredentialError>, ghost order: seq<string>, ghost attempts: seq<Attempt>)
    requires p.configId in issuer.metadata.supported
    requires manager.Valid() && forall k :: Fine(chances(k))
    modifies state`nonces, manager.Repr()
    ensures manager.Valid() && forall k :: 0 <= k < |attempts| ==> DrawnFrom(chances(k), attempts[k])
    ensures Completes(issuer, p, old(state.Contents()), old(manager.Model()), order, attempts, now, r, state.Contents(),
                      manager.Model())
  {
    hide Fine, DrawnFrom, Series, Tried, InTurn, Store.NonceValid, StatusManager.Model, Members;
    attempts := [];
    ghost var m := manager.Model();
    var valid: bool;
    valid, order := ConsumeNonces(p.nonces, state, now);
    assert manager.Model() == m;
    if !valid {
      return Err(InvalidNonce), order, [];
    }
    r, attempts := IssueCredentials(issuer, issuer.metadata.supported[p.configId], p.keys, manager, chances, now);
  }

  /** Process a credential request. */
  method ProcessCredentialRequest(issuer: Issuer, request: CredentialRequest, accessToken: string,
                                  state: InMemoryIssuerState,
                                  manager: StatusManager, chances: nat -> Chance, now: int)
    returns (r: Result<seq<Credential>, CredentialError>, ghost order: seq<string>, ghost attempts: seq<Attempt>)
    requires manager.Valid() && forall k :: Fine(chances(k))
    modifies state`accessTokens, state`nonces, manager.Repr()
    ensures manager.Valid() && forall k :: 0 <= k < |attempts| ==> DrawnFrom(chances(k), attempts[k])
    ensures Handles(issuer, request, accessToken, old(state.Contents()), old(manager.Model()), order, attempts, now,
                    r, state.Contents(), manager.Model())
  {
    hide VerifyProofs, RequestedProofs, ResolveConfiguration, Fine, DrawnFrom, Completes, StatusManager.Model,
         Store.GrantAt, Store.AfterGrantAt;
    order, attempts := [], [];
    var grant := state.GetAccessGrant(accessToken, now);
    if grant.None? {
      return Err(InvalidAccessToken), [], [];
    }
    var configId := ResolveConfiguration(request, grant.value, issuer.metadata);
    if configId.Err? {
      return Err(configId.error), [], [];
    }
    var jwts := RequestedProofs(request, issuer.metadata);
    if jwts.Err? {
      return Err(jwts.error), [], [];
    }
    ResolvedIsSupported(request, grant.value, issuer.metadata);
    var proofs := VerifyAllProofs(issuer, jwts.value, issuer.metadata.supported[configId.value], now);
    if proofs.Err? {
      return Err(proofs.error), [], [];
    }
    var prepared := Prepared(request, configId.value, jwts.value, proofs.value.0, proofs.value.1);
    r, order, attempts := Complete(issuer, prepared, state, manager, chances, now);
  }

  lemma ResolvedIsSupported(request: CredentialRequest, grant: Grant, metadata: Metadata)
    requires ResolveConfiguration(request, grant, metadata).Ok?
    ensures ResolveConfiguration(request, grant, metadata).value in metadata.supported
  {
  }

  /** Verify every proof in order, stopping at the first that fails. */
  method VerifyAllProofs(issuer: Issuer, jwts: seq<string>, config: Configuration, now: int)
    returns (r: Result<(seq<Jwk>, set<string>), CredentialError>)
    ensures r == VerifyProofs(issuer, jwts, config, now)
  {
    hide VerifyProofJwt;
    var keys: seq<Jwk>, nonces: set<string> := [], {};
    for k := 0 to |jwts|
      invariant VerifyProofs(issuer, jwts[..k], config, now) == Ok((keys, nonces))
    {
      var proof := VerifyProofJwt(issuer, jwts[k], config, now);
      assert jwts[..k + 1][..k] == jwts[..k];
      if proof.Err? {
        FirstBadProof(issuer, jwts, config, now, k);
        return Err(proof.error);
      }
      keys := keys + [proof.value.0];
      nonces := nonces + {proof.value.1};
    }
    assert jwts[..|jwts|] == jwts;
    r := Ok((keys, nonces));
  }

  /** A proof that fails is what the whole request fails with, whatever follows it. */
  lemma {:induction false} FirstBadProof(issuer: Issuer, jwts: seq<string>, config: Configuration, now: int, k: nat)
    requires k < |jwts| && VerifyProofs(issuer, jwts[..k], config, now).Ok?
    requires VerifyProofJwt(issuer, jwts[k], config, now).Err?
    ensures VerifyProofs(issuer, jwts, config, now) == Err(VerifyProofJwt(issuer, jwts[k], config, now).error)
    decreases |jwts|
  {
    hide VerifyProofJwt;
    if k < |jwts| - 1 {
      assert jwts[..|jwts| - 1][..k] == jwts[..k];
      FirstBadProof(issuer, jwts[..|jwts| - 1], config, now, k);
    }
  }
}
