/** What a credential request comes to, from its proofs to its credentials. */
module CredentialRequests {
  import opened Wrappers
  import opened IssuerStore
  import opened Authorization
  import opened CredentialIssuance
  import opened CredentialContents
  import opened CredentialEndpoint
  import opened Jws
  import opened StatusManagers

  /** Credential `i` was made now, for the key in the header of proof `i`, whose holder made that proof
      with one of the nonces the request consumed. */
  ghost predicate OneEach(issuer: Issuer, config: Configuration, jwts: seq<string>, nonces: set<string>,
                          made: seq<Made>, credentials: seq<Credential>, now: int) {
    && |credentials| == |made| == |jwts| > 0
    && forall i :: 0 <= i < |jwts| ==>
         && credentials[i] == made[i].credential && made[i].at == now && Genuine(issuer, config, made[i])
         && HeaderKey(issuer, jwts[i]) == Some(made[i].holder)
         && Proves(issuer, jwts[i], made[i].holder, nonces, now)
  }

  /** A successful request gets one credential for each of its proofs, in order, of the configuration it
      resolves to; the nonces that are gone afterwards are the ones of its proofs. */
  lemma OnePerProof(issuer: Issuer, request: CredentialRequest, token: string, store: Store, m: ManagerModel,
                    order: seq<string>, attempts: seq<Attempt>, now: int,
                    r: Result<seq<Credential>, CredentialError>, after: Store, m': ManagerModel)
    returns (configId: string, made: seq<Made>)
    requires Handles(issuer, request, token, store, m, order, attempts, now, r, after, m') && r.Ok?
    ensures store.GrantAt(token, now).Some?
    ensures ResolveConfiguration(request, store.GrantAt(token, now).value, issuer.metadata) == Ok(configId)
    ensures configId in issuer.metadata.supported
    ensures OneEach(issuer, issuer.metadata.supported[configId], ProofsOf(request), Members(order), made, r.value, now)
    ensures after.nonces == store.nonces - Members(order)
  {
    hide VerifyProofs, Proves, HeaderKey, ResolveConfiguration, InTurn, Store.NonceValid, Store.GrantAt, Tried, Series,
         Genuine, Members;
    var grant := store.GrantAt(token, now).value;
    var p := Prepare(issuer, request, grant, now).value;
    configId := p.configId;
    var config := issuer.metadata.supported[configId];
    made := Series(issuer, config, p.keys, m, attempts, now).0.value;
    SeriesMakes(issuer, config, p.keys, m, attempts, now);
    KeysOfProofs(issuer, p.proofs, config, now);
    forall i | 0 <= i < |p.proofs| ensures HeaderKey(issuer, p.proofs[i]) == Some(p.keys[i]) {
      KeyIsInHeader(issuer, p.proofs[i], p.keys[i], p.nonces, now);
    }
  }

  lemma KeyIsInHeader(issuer: Issuer, jwt: string, key: Jwk, nonces: set<string>, at: int)
    requires Proves(issuer, jwt, key, nonces, at)
    ensures HeaderKey(issuer, jwt) == Some(key)
  {
    hide SignedProof;
  }

  /** A request for a configuration no credential can be issued for fails, and draws no status index,
      though its nonces are consumed. */
  lemma RefusedDrawsNothing(issuer: Issuer, request: CredentialRequest, token: string, store: Store, m: ManagerModel,
                            order: seq<string>, attempts: seq<Attempt>, now: int,
                            r: Result<seq<Credential>, CredentialError>, after: Store, m': ManagerModel)
    requires Handles(issuer, request, token, store, m, order, attempts, now, r, after, m')
    requires store.GrantAt(token, now).Some?
    requires var configId := ResolveConfiguration(request, store.GrantAt(token, now).value, issuer.metadata);
             configId.Ok? ==> configId.value in issuer.metadata.supported
                              && !CanIssue(issuer, issuer.metadata.supported[configId.value])
    ensures r.Err? && m' == m
  {
    hide VerifyProofs, ResolveConfiguration, InTurn, Store.NonceValid, Store.GrantAt, Tried, Series, Refusal, CanIssue,
         Members;
    var grant := store.GrantAt(token, now).value;
    if Prepare(issuer, request, grant, now).Ok? {
      var p := Prepare(issuer, request, grant, now).value;
      var config := issuer.metadata.supported[p.configId];
      RefusedIff(issuer, config);
      if CredentialIssuance.Tried(issuer, config, p.keys, m, attempts, now) {
        SeriesRefused(issuer, config, p.keys, m, attempts, now);
      }
    }
  }
}
