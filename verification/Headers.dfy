/** What the headers of a request establish: the attested client, and the key of its DPoP proof. */
module Headers {
  import opened Wrappers
  import opened IssuerStore
  import opened Proofs
  import opened ReplayCache

  /** A DPoP value that is no text is `None`; attestation headers that are no text count as absent. */
  datatype Headers = Headers(attestation: Option<string>, pop: Option<string>, dpop: seq<Option<string>>)

  datatype HeaderError = BadClient | BadProof

  /** The replay check of a proof, and the store after it. */
  function Check(v: Verifier, p: Presented, error: HeaderError, store: Store): (Result<string, HeaderError>, Store) {
    match Show(v, p)
    case None => (Err(error), store)
    case Some(shown) =>
      (if store.IsFresh(shown.key, p.at) then Ok(shown.who) else Err(error),
       store.RecordJti(shown.key, PROOF_TTL, p.at))
  }

  /** The client, if both its headers are sent and check out; none if neither is sent. */
  function ReadClient(v: Verifier, h: Headers, store: Store, now: int): (Result<Option<string>, HeaderError>, Store) {
    match (h.attestation, h.pop)
    case (None, None) => (Ok(None), store)
    case (Some(attestation), Some(pop)) =>
      var (who, after) := Check(v, Attestation(attestation, pop, now), BadClient, store);
      (match who case Ok(client) => Ok(Some(client)) case Err(e) => Err(e), after)
    case _ => (Err(BadClient), store)
  }

  /** The key of the one DPoP proof sent; none if none is sent. */
  function ReadDpop(v: Verifier, dpop: seq<Option<string>>, ctx: DpopContext, store: Store, now: int)
    : (Result<Option<string>, HeaderError>, Store)
  {
    if dpop == [] then (Ok(None), store)
    else if |dpop| > 1 || dpop[0].None? then (Err(BadProof), store)
    else
      var (who, after) := Check(v, Dpop(dpop[0].value, ctx, now), BadProof, store);
      (match who case Ok(jkt) => Ok(Some(jkt)) case Err(e) => Err(e), after)
  }

  method AuthenticateClient(v: Verifier, h: Headers, state: InMemoryIssuerState, now: int)
    returns (r: Result<Option<string>, HeaderError>)
    modifies state`seenJtis
    ensures (r, state.Contents()) == ReadClient(v, h, old(state.Contents()), now)
  {
    hide CheckAttestation, CheckPop, Store.RecordJti, Store.IsFresh;
    if h.attestation.None? && h.pop.None? {
      return Ok(None);
    }
    if h.attestation.None? || h.pop.None? {
      return Err(BadClient);
    }
    ghost var p := Attestation(h.attestation.value, h.pop.value, now);
    if Show(v, p).Some? {
      AttestedIsShown(v, p);
    }
    var client := VerifyClientAttestation(v.env, h.attestation.value, h.pop.value, v.trusted, v.audience, state, now);
    r := if client.Some? then Ok(Some(client.value.clientId)) else Err(BadClient);
  }

  lemma AttestedIsShown(v: Verifier, p: Presented)
    requires p.Attestation? && Show(v, p).Some?
    ensures CheckAttestation(v.env, p.attestation, v.trusted, p.at).Some?
    ensures Show(v, p).value.who == CheckAttestation(v.env, p.attestation, v.trusted, p.at).value.clientId
  {
    hide CheckAttestation;
  }

  method DpopKey(v: Verifier, dpop: seq<Option<string>>, ctx: DpopContext, state: InMemoryIssuerState, now: int)
    returns (r: Result<Option<string>, HeaderError>)
    modifies state`seenJtis
    ensures (r, state.Contents()) == ReadDpop(v, dpop, ctx, old(state.Contents()), now)
  {
    hide CheckDpop, Store.RecordJti, Store.IsFresh;
    if dpop == [] {
      return Ok(None);
    }
    if |dpop| > 1 || dpop[0].None? {
      return Err(BadProof);
    }
    var jkt := VerifyDpopProof(v.env, dpop[0].value, ctx, state, now);
    r := if jkt.Some? then Ok(jkt) else Err(BadProof);
  }

  // ---- What they prove ------------------------------------------------------------------------

  /** The headers carry an attestation by a trusted attester, and a proof of possession by the attested key
      for the attested client, good at `at`. */
  ghost predicate Carries(v: Verifier, h: Headers, shown: Shown, at: int) {
    && h.attestation.Some? && h.pop.Some?
    && exists key :: AttestedWith(v, h, AttestedClient(shown.who, key), shown, at)
  }

  ghost predicate AttestedWith(v: Verifier, h: Headers, client: AttestedClient, shown: Shown, at: int) {
    && h.attestation.Some? && h.pop.Some?
    && Attests(v.env, h.attestation.value, v.trusted, client, at)
    && Possesses(v.env, h.pop.value, client, v.audience, at, shown)
  }

  /** The headers carry an attestation of this client by a trusted attester and a proof by its key, good at `at`. */
  ghost predicate ClientProven(v: Verifier, h: Headers, client: string, at: int) {
    exists shown :: Carries(v, h, shown, at) && shown.who == client
  }

  /** The one DPoP value is a proof by this key for this method, URL and token, good at `at`. */
  ghost predicate KeyProven(v: Verifier, dpop: seq<Option<string>>, ctx: DpopContext, jkt: string, at: int) {
    exists shown :: CarriesDpop(v, dpop, ctx, shown, at) && shown.who == jkt
  }

  ghost predicate CarriesDpop(v: Verifier, dpop: seq<Option<string>>, ctx: DpopContext, shown: Shown, at: int) {
    |dpop| == 1 && dpop[0].Some? && DpopProof(v.env, dpop[0].value, ctx, at, shown)
  }

  /** What an attestation with its proof of possession shows is what a genuine pair shows. */
  lemma ShowsCarried(v: Verifier, h: Headers, at: int, shown: Shown)
    requires h.attestation.Some? && h.pop.Some?
    ensures Show(v, Attestation(h.attestation.value, h.pop.value, at)) == Some(shown) <==> Carries(v, h, shown, at)
  {
    hide Attests, Possesses, CheckAttestation, CheckPop;
    var attestation, pop := h.attestation.value, h.pop.value;
    var checked := CheckAttestation(v.env, attestation, v.trusted, at);
    if checked.Some? {
      AttestationIff(v.env, attestation, v.trusted, at, checked.value);
      PossessionIff(v.env, pop, checked.value, v.audience, at, shown);
      if Show(v, Attestation(attestation, pop, at)) == Some(shown) {
        NamedByProof(v.env, pop, checked.value, v.audience, at, shown);
        assert AttestedWith(v, h, AttestedClient(shown.who, checked.value.instanceKey), shown, at);
      }
    }
    if Carries(v, h, shown, at) {
      var key :| AttestedWith(v, h, AttestedClient(shown.who, key), shown, at);
      AttestationIff(v.env, attestation, v.trusted, at, AttestedClient(shown.who, key));
    }
  }

  lemma NamedByProof(env: Env, pop: string, client: AttestedClient, server: string, now: int, shown: Shown)
    requires Possesses(env, pop, client, server, now, shown)
    ensures shown.who == client.clientId
  {
  }

  /** The client of a request: none iff it sends neither header; otherwise the one they prove, iff the
      proof was not used before. Of the store only the cache of identifiers can change, and it records
      exactly the proofs that check out. */
  lemma ReadClientIff(v: Verifier, h: Headers, store: Store, now: int)
    ensures var (client, after) := ReadClient(v, h, store, now);
            && (client == Ok(None) <==> h.attestation.None? && h.pop.None?)
            && (forall id :: client == Ok(Some(id)) <==>
                  exists shown: Shown :: Carries(v, h, shown, now) && shown.who == id && store.IsFresh(shown.key, now))
            && (forall shown: Shown :: Carries(v, h, shown, now) ==> after == store.RecordJti(shown.key, 360, now))
            && ((forall shown: Shown :: !Carries(v, h, shown, now)) ==> after == store)
  {
    hide Carries, Show, Store.IsFresh, Store.RecordJti;
    if h.attestation.Some? && h.pop.Some? {
      forall shown
        ensures Show(v, Attestation(h.attestation.value, h.pop.value, now)) == Some(shown) <==>
                Carries(v, h, shown, now)
      {
        ShowsCarried(v, h, now, shown);
      }
    } else {
      NothingCarried(v, h, now);
    }
  }

  lemma NothingCarried(v: Verifier, h: Headers, now: int)
    requires h.attestation.None? || h.pop.None?
    ensures forall shown: Shown :: !Carries(v, h, shown, now)
  {
  }

  /** The DPoP key of a request: none iff it sends no DPoP header; otherwise the one the single header's
      proof is by, iff it was not used before. */
  lemma ReadDpopIff(v: Verifier, dpop: seq<Option<string>>, ctx: DpopContext, store: Store, now: int)
    ensures var (jkt, after) := ReadDpop(v, dpop, ctx, store, now);
            && (jkt == Ok(None) <==> dpop == [])
            && (forall key :: jkt == Ok(Some(key)) <==>
                  exists shown: Shown :: CarriesDpop(v, dpop, ctx, shown, now) && shown.who == key
                                         && store.IsFresh(shown.key, now))
            && (forall shown: Shown :: CarriesDpop(v, dpop, ctx, shown, now) ==>
                  after == store.RecordJti(shown.key, 360, now))
            && ((forall shown: Shown :: !CarriesDpop(v, dpop, ctx, shown, now)) ==> after == store)
  {
    hide DpopProof, CheckDpop, Store.IsFresh, Store.RecordJti;
    if |dpop| == 1 && dpop[0].Some? {
      forall shown
        ensures CheckDpop(v.env, dpop[0].value, ctx, now) == Some(shown) <==> CarriesDpop(v, dpop, ctx, shown, now)
      {
        DpopIff(v.env, dpop[0].value, ctx, now, shown);
      }
    }
  }

  /** Reading the headers touches the cache of identifiers only, and a client that is read is proven. */
  lemma ClientReadIsProven(v: Verifier, h: Headers, store: Store, now: int)
    ensures var (client, after) := ReadClient(v, h, store, now);
            && after == store.(seenJtis := after.seenJtis)
            && (client.Ok? && client.value.Some? ==> ClientProven(v, h, client.value.value, now))
  {
    hide Show, Carries, Store.IsFresh;
    ReadClientIff(v, h, store, now);
  }

  /** So is a DPoP key. */
  lemma KeyReadIsProven(v: Verifier, dpop: seq<Option<string>>, ctx: DpopContext, store: Store, now: int)
    ensures var (jkt, after) := ReadDpop(v, dpop, ctx, store, now);
            && after == store.(seenJtis := after.seenJtis)
            && (jkt.Ok? && jkt.value.Some? ==> KeyProven(v, dpop, ctx, jkt.value.value, now))
  {
    hide CheckDpop, DpopProof, Store.IsFresh;
    ReadDpopIff(v, dpop, ctx, store, now);
  }
}
