/** Invariants of the protocol: offers, access tokens and what they are good for. */
module ProtocolTokens {
  import opened Wrappers
  import opened IssuerStore
  import opened Authorization
  import opened TokenEndpoint
  import opened CredentialEndpoint
  import opened CredentialIssuance
  import opened Protocol
  import opened ProtocolCodes

  // ---- Pre-authorized codes ----------------------------------------------------------------------

  ghost predicate OfferOk(metadata: Metadata, entry: PreAuthEntry, ids: seq<string>) {
    entry.configIds == ids && ids != [] && Supported(ids, metadata)
  }

  /** A code that a token was minted from, or is being minted from, is consumed. */
  ghost predicate Redeemed(preAuthCodes: map<string, PreAuthEntry>, code: string) {
    code in preAuthCodes && preAuthCodes[code].consumed
  }

  ghost predicate OffersOk(metadata: Metadata, preAuthCodes: map<string, PreAuthEntry>,
                           offers: map<string, seq<string>>) {
    && preAuthCodes.Keys == offers.Keys
    && forall code :: code in offers ==> OfferOk(metadata, preAuthCodes[code], offers[code])
  }

  ghost predicate MintsOk(preAuthCodes: map<string, PreAuthEntry>, preMints: map<string, PreMint>) {
    && (forall t :: t in preMints ==> Redeemed(preAuthCodes, preMints[t].code))
    && (forall t, u :: t in preMints && u in preMints && preMints[t].code == preMints[u].code ==> t == u)
  }

  predicate IsMinting(threads: map<nat, Thread>, tid: nat) {
    tid in threads && threads[tid].Minting?
  }

  ghost predicate MintingOk(preAuthCodes: map<string, PreAuthEntry>, preMints: map<string, PreMint>,
                            threads: map<nat, Thread>) {
    && (forall i :: IsMinting(threads, i) ==> Redeemed(preAuthCodes, threads[i].code)
                                              && preAuthCodes[threads[i].code].configIds == threads[i].ids)
    && (forall i, j :: IsMinting(threads, i) && IsMinting(threads, j) && threads[i].code == threads[j].code ==> i == j)
    && (forall i, t :: IsMinting(threads, i) && t in preMints ==> preMints[t].code != threads[i].code)
  }

  ghost predicate PreInv(metadata: Metadata, preAuthCodes: map<string, PreAuthEntry>, offers: map<string, seq<string>>,
                         preMints: map<string, PreMint>, threads: map<nat, Thread>, used: set<string>) {
    && OffersOk(metadata, preAuthCodes, offers) && MintsOk(preAuthCodes, preMints)
    && MintingOk(preAuthCodes, preMints, threads)
    && offers.Keys <= used && preMints.Keys <= used
  }

  ghost predicate Offered(env: Env, s: Sys) {
    PreInv(env.issuer.metadata, s.store.preAuthCodes, s.history.offers, s.history.preMints, s.threads, s.used)
  }

  lemma OfferKeepsOffers(env: Env, s: Sys, op: Op)
    requires Offered(env, s) && op.Offer?
    ensures Offered(env, OfferStep(env, s, op))
  {
    if op.uuid !in s.used && op.configId in env.issuer.metadata.supported {
      var after := OfferStep(env, s, op);
      assert Supported([op.configId], env.issuer.metadata);
      assert forall t :: t in s.history.preMints ==> s.history.preMints[t].code != op.uuid;
    }
  }

  lemma RedeemPreKeepsOffers(env: Env, s: Sys, op: Op)
    requires Offered(env, s) && op.RedeemPre?
    ensures Offered(env, RedeemPreStep(s, op))
  {
    hide Supported;
    if op.tid !in s.threads && s.store.Redeemable(op.code, op.txCode).Some? {
      var ids := s.store.preAuthCodes[op.code].configIds;
      assert forall t :: t in s.history.preMints ==> s.history.preMints[t].code != op.code;
      assert forall i :: IsMinting(s.threads, i) ==> s.threads[i].code != op.code;
      RedeemedMinting(s.store.preAuthCodes, s.history.preMints, s.threads, op.tid, Minting(op.code, ids, op.proofJkt));
    }
  }

  lemma RedeemedMinting(preAuthCodes: map<string, PreAuthEntry>, preMints: map<string, PreMint>,
                        threads: map<nat, Thread>, tid: nat, t: Thread)
    requires MintingOk(preAuthCodes, preMints, threads) && tid !in threads && t.Minting? && t.code in preAuthCodes
    requires t.ids == preAuthCodes[t.code].configIds
    requires forall u :: u in preMints ==> preMints[u].code != t.code
    requires forall i :: IsMinting(threads, i) ==> threads[i].code != t.code
    ensures MintingOk(preAuthCodes[t.code := preAuthCodes[t.code].(consumed := true)], preMints, threads[tid := t])
  {
  }

  lemma MintPreKeepsOffers(env: Env, s: Sys, op: Op)
    requires Offered(env, s) && op.MintPre?
    ensures Offered(env, MintPreStep(s, op))
  {
  }

  /** Threads that are not minting may come and go. */
  lemma OtherThreadsKeepOffers(env: Env, s: Sys, after: Sys)
    requires Offered(env, s) && SameOffers(s, after) && s.used <= after.used && MintersStay(s, after)
    ensures Offered(env, after)
  {
  }

  lemma StepKeepsOffers(env: Env, s: Sys, op: Op)
    requires Offered(env, s)
    ensures Offered(env, Step(env, s, op))
  {
    hide PreInv, PushStep, DecisionStep, TokenOpStep, OfferStep, NonceStep, RedeemPreStep, MintPreStep, AuthorizeStep,
         BeginStep,
         ConsumeStep, IssueNextStep, FinishStep, ManageStep, SameOffers;
    if op.Offer? { OfferKeepsOffers(env, s, op); }
    if op.RedeemPre? { RedeemPreKeepsOffers(env, s, op); }
    if op.MintPre? { MintPreKeepsOffers(env, s, op); }
    if !op.Offer? && !op.RedeemPre? && !op.MintPre? {
      OthersLeaveOffers(env, s, op);
      OtherThreadsKeepOffers(env, s, Step(env, s, op));
    }
  }

  lemma PushLeavesOffers(env: Env, s: Sys, op: Op)
    requires op.Push?
    ensures SameOffers(s, PushStep(env, s, op)) && s.used <= PushStep(env, s, op).used
    ensures PushStep(env, s, op).threads == s.threads
    ensures SameEnded(s, PushStep(env, s, op)) && PushStep(env, s, op).store.nonces == s.store.nonces
  {
  }

  lemma DecisionLeavesOffers(env: Env, s: Sys, op: Op)
    requires op.Decision?
    ensures SameOffers(s, DecisionStep(env, s, op)) && s.used <= DecisionStep(env, s, op).used
    ensures DecisionStep(env, s, op).threads == s.threads
    ensures SameEnded(s, DecisionStep(env, s, op)) && DecisionStep(env, s, op).store.nonces == s.store.nonces
  {
  }

  /** Neither offers, threads, nonces nor ended requests change. */
  ghost predicate CodesOnly(s: Sys, after: Sys) {
    SameOffers(s, after) && SameEnded(s, after) && s.used <= after.used && after.threads == s.threads
    && after.store.nonces == s.store.nonces
  }

  lemma RedemptionLeaves(s: Sys, op: Op, store: Store, response: TokenResponse)
    requires op.Token? && store.preAuthCodes == s.store.preAuthCodes && store.nonces == s.store.nonces
    ensures CodesOnly(s, AfterRedemption(s, op, store, response))
  {
    hide Taken, Needed, RedemptionOf;
  }

  lemma ReplayLeaves(s: Sys, store: Store, code: string)
    requires store.preAuthCodes == s.store.preAuthCodes && store.nonces == s.store.nonces
    ensures CodesOnly(s, AfterReplay(s, store, code)) && CodesOnly(s, s.(store := store))
  {
  }

  lemma TokenOpLeaves(env: Env, s: Sys, op: Op)
    requires op.Token?
    ensures CodesOnly(s, TokenOpStep(env, s, op))
  {
    hide TokenStep, Unused, AfterRedemption, AfterReplay, CodesOnly;
    if op.tokenRequest.grantType == PRE_AUTHORIZED_CODE || !Unused(s.used, op.uuids, Needed(s.store, op.tokenRequest)) {
      ReplayLeaves(s, s.store, "");
      assert s.(store := s.store) == s;
    } else {
      TokenLeavesOffers(env, s, op);
      var (r, store) := TokenStep(env.issuer.lib, s.store, op.tokenRequest, op.ctx, op.uuids, s.clock);
      if r.Ok? {
        RedemptionLeaves(s, op, store, r.value);
      } else {
        ReplayLeaves(s, store, if op.tokenRequest.code.Some? then op.tokenRequest.code.value else "");
      }
    }
  }

  lemma CodeStepsLeaveOffers(env: Env, s: Sys, op: Op)
    requires op.Tick? || op.Push? || op.Decision? || op.Token?
    ensures SameOffers(s, Step(env, s, op)) && s.used <= Step(env, s, op).used && Step(env, s, op).threads == s.threads
    ensures SameEnded(s, Step(env, s, op)) && Step(env, s, op).store.nonces == s.store.nonces
  {
    hide SameOffers, SameEnded, PushStep, DecisionStep, TokenOpStep, OfferStep, RedeemPreStep, MintPreStep, NonceStep,
         AuthorizeStep, BeginStep,
         ConsumeStep, IssueNextStep, FinishStep, ManageStep;
    if op.Tick? { TickLeaves(s, op.ms); }
    if op.Push? { PushLeavesOffers(env, s, op); }
    if op.Decision? { DecisionLeavesOffers(env, s, op); }
    if op.Token? { TokenOpLeaves(env, s, op); }
  }

  lemma TickLeaves(s: Sys, ms: nat)
    ensures SameOffers(s, s.(clock := s.clock + ms)) && SameEnded(s, s.(clock := s.clock + ms))
  {
  }

  lemma CodeCallsLeave(store: Store, code: string)
    ensures store.ConsumeCode(code).preAuthCodes == store.preAuthCodes
    ensures store.ConsumeCode(code).nonces == store.nonces
    ensures store.RevokeTokens(code).preAuthCodes == store.preAuthCodes
    ensures store.RevokeTokens(code).nonces == store.nonces
  {
  }

  lemma TokenCallsLeave(store: Store, code: string, token: string, grant: Grant, now: int)
    ensures var after := store.StoreToken(token, grant, ACCESS_TOKEN_TTL, now).RecordToken(code, token);
            after.preAuthCodes == store.preAuthCodes && after.nonces == store.nonces
  {
  }

  lemma TokenLeavesOffers(env: Env, s: Sys, op: Op)
    requires op.Token? && op.tokenRequest.grantType != PRE_AUTHORIZED_CODE
    ensures var store := TokenStep(env.issuer.lib, s.store, op.tokenRequest, op.ctx, op.uuids, s.clock).1;
            store.preAuthCodes == s.store.preAuthCodes && store.nonces == s.store.nonces
  {
    hide CheckCode, MintedGrant, MintedResponse, RedeemPreAuthorized, Store.SessionByCode, Store.ConsumeCode,
         Store.StoreToken, Store.RecordToken, Store.RevokeTokens;
    if op.tokenRequest.code.Some? {
      var code := op.tokenRequest.code.value;
      CodeCallsLeave(s.store, code);
      var consumed := s.store.ConsumeCode(code);
      forall grant: Grant {
        TokenCallsLeave(consumed, code, op.uuids(0), grant, s.clock);
      }
    }
  }

  /** A credential request is never in the middle of minting. */
  lemma CredentialThreads(env: Env, s: Sys, op: Op)
    ensures op.Authorize? ==> MintersStay(s, AuthorizeStep(env, s, op))
    ensures op.Begin? ==> MintersStay(s, BeginStep(env, s, op))
    ensures op.Consume? ==> MintersStay(s, ConsumeStep(s, op))
    ensures op.IssueNext? ==> MintersStay(s, IssueNextStep(env, s, op))
    ensures op.Finish? ==> MintersStay(s, FinishStep(s, op))
  {
    hide ResourceAccess.Authorize, Prepare, Possible, Outcome, AfterAttempt;
  }

  /** Whoever is minting was minting before. */
  ghost predicate MintersStay(s: Sys, after: Sys) {
    forall tid :: IsMinting(after.threads, tid) ==> tid in s.threads && s.threads[tid] == after.threads[tid]
  }

  lemma SameMinters(s: Sys, after: Sys)
    requires after.threads == s.threads
    ensures MintersStay(s, after)
  {
  }

  lemma OthersLeaveOffers(env: Env, s: Sys, op: Op)
    requires !op.Offer? && !op.RedeemPre? && !op.MintPre?
    ensures SameOffers(s, Step(env, s, op)) && s.used <= Step(env, s, op).used && MintersStay(s, Step(env, s, op))
  {
    hide SameOffers, SameCodes, SameEnded, SameStatus, MintersStay, PushStep, DecisionStep, TokenOpStep, OfferStep,
         RedeemPreStep, MintPreStep, NonceStep, AuthorizeStep, BeginStep,
         ConsumeStep, IssueNextStep, FinishStep, ManageStep;
    if op.Tick? || op.Push? || op.Decision? || op.Token? {
      CodeStepsLeaveOffers(env, s, op);
      SameMinters(s, Step(env, s, op));
    }
    if op.Nonce? { NonceLeaves(env, s, op); SameMinters(s, NonceStep(s, op)); }
    if op.Manage? { ManageLeaves(s, op); SameMinters(s, ManageStep(s, op)); }
    if op.Authorize? { AuthorizeLeaves(env, s, op); CredentialThreads(env, s, op); }
    if op.Begin? { BeginLeaves(env, s, op); CredentialThreads(env, s, op); }
    if op.Consume? { ConsumeLeaves(env, s, op); CredentialThreads(env, s, op); }
    if op.IssueNext? { IssueNextLeaves(env, s, op); CredentialThreads(env, s, op); }
    if op.Finish? { FinishLeaves(s, op); CredentialThreads(env, s, op); }
  }

  // ---- Access tokens ---------------------------------------------------------------------------------

  /** The credential endpoint accepts exactly what the token response said. */
  ghost predicate Agree(metadata: Metadata, grant: Grant, response: TokenResponse) {
    && Supported(grant.configIds, metadata)
    && match response.details
       case Some(details) =>
         && (forall x, id :: ResolveConfiguration(ByIdentifier(x), grant, metadata) == Ok(id)
               <==> Listed(details, x, id))
         && (forall x :: ResolveConfiguration(ByConfiguration(x), grant, metadata).Err?)
       case None =>
         && (forall x, id :: ResolveConfiguration(ByConfiguration(x), grant, metadata) == Ok(id)
               <==> x == id && x in grant.configIds)
         && (forall x :: ResolveConfiguration(ByIdentifier(x), grant, metadata).Err?)
  }

  /** The token response describes the token: it carries it, names the scheme a token of its kind is used
      under, and gives its lifetime. */
  ghost predicate Announced(token: string, entry: TokenEntry, response: TokenResponse, at: int) {
    && response.accessToken == token
    && response.tokenType == (if entry.grant.dpopJkt.Some? then "DPoP" else "Bearer")
    && entry.expiresAt == at + response.expiresIn * 1000
  }

  lemma MintedAnnounced(ids: seq<string>, via: bool, jkt: Option<string>, uuid: nat -> string, entry: TokenEntry,
                        at: int)
    requires entry == TokenEntry(MintedGrant(ids, via, jkt, uuid), at + TOKEN_BOUND)
    ensures Announced(uuid(0), entry, MintedResponse(ids, via, jkt, uuid), at)
  {
  }

  lemma MintedAgree(metadata: Metadata, ids: seq<string>, via: bool, jkt: Option<string>, uuid: nat -> string)
    requires ids != [] && Supported(ids, metadata) && Distinct(uuid, if via then |ids| + 1 else 1)
    ensures Agree(metadata, MintedGrant(ids, via, jkt, uuid), MintedResponse(ids, via, jkt, uuid))
  {
    hide ResolveConfiguration, Listed, DistinctDetails, Supported, Distinct, Table;
    if via {
      forall x, id
        ensures ResolveConfiguration(ByIdentifier(x), MintedGrant(ids, via, jkt, uuid), metadata) == Ok(id)
                <==> Listed(DetailsOf(ids, uuid), x, id)
        ensures ResolveConfiguration(ByConfiguration(x), MintedGrant(ids, via, jkt, uuid), metadata).Err?
      {
        DetailsAgree(ids, jkt, uuid, metadata, x, id);
      }
    } else {
      forall x, id
        ensures ResolveConfiguration(ByConfiguration(x), MintedGrant(ids, via, jkt, uuid), metadata) == Ok(id)
                <==> x == id && x in ids
        ensures ResolveConfiguration(ByIdentifier(x), MintedGrant(ids, via, jkt, uuid), metadata).Err?
      {
        ConfigurationsAgree(ids, jkt, uuid, metadata, x, id);
      }
    }
  }

  /** A live token minted from a code. */
  ghost predicate FromCode(metadata: Metadata, token: string, entry: TokenEntry, r: Redemption,
                           pars: map<string, ParRecord>, approvals: map<string, Approval>) {
    && r.code in approvals && approvals[r.code].uri in pars && Announced(token, entry, r.response, r.at)
    && entry.expiresAt == r.at + TOKEN_BOUND && entry.grant.dpopJkt == Some(r.jkt)
    && entry.grant.configIds == pars[approvals[r.code].uri].ids && Agree(metadata, entry.grant, r.response)
  }

  /** A live token minted from an offer. */
  ghost predicate FromOffer(metadata: Metadata, token: string, entry: TokenEntry, m: PreMint,
                            offers: map<string, seq<string>>) {
    && m.code in offers && Announced(token, entry, m.response, m.at)
    && entry.expiresAt == m.at + TOKEN_BOUND && entry.grant.dpopJkt == m.jkt
    && entry.grant.configIds == offers[m.code] && Agree(metadata, entry.grant, m.response)
  }

  ghost predicate TokenOk(metadata: Metadata, token: string, entry: TokenEntry, h: History) {
    || (token in h.redemptions && FromCode(metadata, token, entry, h.redemptions[token], h.pars, h.approvals))
    || (token in h.preMints && FromOffer(metadata, token, entry, h.preMints[token], h.offers))
  }

  ghost predicate TokensOk(metadata: Metadata, accessTokens: map<string, TokenEntry>, h: History) {
    && h.redemptions.Keys !! h.preMints.Keys
    && forall token :: token in accessTokens ==> TokenOk(metadata, token, accessTokens[token], h)
  }

  /** A replayed code's token is gone; any other code knows the token it was redeemed for. */
  ghost predicate Revocable(token: string, r: Redemption, accessTokens: map<string, TokenEntry>,
                            tokensByCode: map<string, string>, replayed: set<string>) {
    if r.code in replayed then token !in accessTokens else r.code in tokensByCode && tokensByCode[r.code] == token
  }

  ghost predicate RevocableAll(accessTokens: map<string, TokenEntry>, tokensByCode: map<string, string>, h: History) {
    forall token :: token in h.redemptions ==> Revocable(token, h.redemptions[token], accessTokens, tokensByCode,
                                                         h.replayed)
  }

  ghost predicate ReplayedOk(sessions: map<string, Session>, h: History) {
    forall code :: code in h.replayed ==>
      code in h.approvals && h.approvals[code].uri in sessions && sessions[h.approvals[code].uri].consumed
  }

  ghost predicate Tokens(env: Env, s: Sys) {
    && TokensOk(env.issuer.metadata, s.store.accessTokens, s.history)
    && RevocableAll(s.store.accessTokens, s.store.tokensByCode, s.history)
    && ReplayedOk(s.store.sessions, s.history)
  }

  // ---- History only grows ------------------------------------------------------------------------------

  ghost predicate Extends<V>(m: map<string, V>, n: map<string, V>) {
    forall k :: k in m ==> k in n && n[k] == m[k]
  }

  /** Nothing that happened is ever forgotten or changed. */
  ghost predicate Grows(h: History, g: History) {
    && Extends(h.pars, g.pars) && Extends(h.approvals, g.approvals) && Extends(h.redemptions, g.redemptions)
    && h.replayed <= g.replayed && Extends(h.offers, g.offers) && Extends(h.preMints, g.preMints)
    && h.handed.Keys <= g.handed.Keys && h.batches <= g.batches && h.failures <= g.failures
  }

  /** A pushed request that is stored: a new session and its record. */
  lemma PushOutcome(env: Env, s: Sys, op: Op) returns (uri: string, session: Session, p: ParRecord)
    requires op.Push?
    ensures uri == URI_PREFIX + op.uuid
    ensures var after := PushStep(env, s, op);
            after == s
            || (op.uuid !in s.used
                && after.history == s.history.(pars := s.history.pars[uri := p])
                && after.store == s.store.(sessions := s.store.sessions[uri := session]))
  {
    hide Resolves, CheckPar, NewSession;
    uri := URI_PREFIX + op.uuid;
    var jkt := CheckPar(op.request, op.client, op.proofJkt);
    var key := if jkt.Ok? then jkt.value else None;
    session := NewSession(op.request, uri, key, op.ids, op.via, s.clock);
    p := ParRecord(op.client, op.request.codeChallenge, op.request.redirectUri, op.ids, op.via, key, s.clock,
                   op.headers);
  }

  lemma NewUri(env: Env, s: Sys, uuid: string)
    requires Codes(env, s) && uuid !in s.used
    ensures URI_PREFIX + uuid !in s.store.sessions && URI_PREFIX + uuid !in s.history.pars
  {
    hide SessionOk, ApprovalsOk, RedemptionsOk, OneTokenEach;
  }

  lemma ParGrows(h: History, uri: string, p: ParRecord)
    requires uri !in h.pars
    ensures Grows(h, h.(pars := h.pars[uri := p]))
  {
  }

  lemma PushGrows(env: Env, s: Sys, op: Op)
    requires Codes(env, s) && op.Push?
    ensures Grows(s.history, PushStep(env, s, op).history)
  {
    hide Codes, Grows, PushStep;
    var uri, session, p := PushOutcome(env, s, op);
    if op.uuid in s.used || PushStep(env, s, op) == s {
      SameGrows(s.history);
    } else {
      NewUri(env, s, op.uuid);
      ParGrows(s.history, uri, p);
    }
  }

  lemma DecisionOutcome(env: Env, s: Sys, op: Op)
    requires op.Decision?
    ensures var h := DecisionStep(env, s, op).history;
            h == s.history
            || (op.uuid !in s.used
                && h == s.history.(approvals := s.history.approvals[op.uuid := Approval(op.uri, s.clock)]))
  {
    hide Decide;
  }

  lemma ApprovalGrows(h: History, code: string, a: Approval)
    requires code !in h.approvals
    ensures Grows(h, h.(approvals := h.approvals[code := a]))
  {
  }

  lemma CodesAreUsed(env: Env, s: Sys)
    requires Codes(env, s)
    ensures s.history.approvals.Keys <= s.used && s.history.redemptions.Keys <= s.used
  {
    hide SessionsOk, ApprovalsOk, RedemptionsOk, OneTokenEach;
  }

  lemma DecisionGrows(env: Env, s: Sys, op: Op)
    requires Codes(env, s) && op.Decision?
    ensures Grows(s.history, DecisionStep(env, s, op).history)
  {
    hide Codes, Grows, DecisionStep;
    DecisionOutcome(env, s, op);
    CodesAreUsed(env, s);
    SameGrows(s.history);
    if op.uuid !in s.history.approvals {
      ApprovalGrows(s.history, op.uuid, Approval(op.uri, s.clock));
    }
  }

  lemma RedemptionGrows(h: History, token: string, r: Redemption)
    requires token !in h.redemptions
    ensures Grows(h, h.(redemptions := h.redemptions[token := r]))
  {
  }

  lemma ReplayGrows(h: History, code: string)
    ensures Grows(h, h.(replayed := h.replayed + {code}))
  {
  }

  lemma SameGrows(h: History)
    ensures Grows(h, h)
  {
  }

  lemma TokenGrows(env: Env, s: Sys, op: Op)
    requires Codes(env, s) && op.Token?
    ensures Grows(s.history, TokenOpStep(env, s, op).history)
  {
    hide TokenStep, RedemptionOf, Unused, Taken, Codes, Needed, Grows;
    CodeTokensUsed(env, s);
    FirstUnused(s.used, op.uuids, Needed(s.store, op.tokenRequest));
    SameGrows(s.history);
    var r := TokenStep(env.issuer.lib, s.store, op.tokenRequest, op.ctx, op.uuids, s.clock).0;
    if r.Ok? && op.uuids(0) !in s.used {
      RedemptionGrows(s.history, op.uuids(0), RedemptionOf(op.headers, op.tokenRequest, op.ctx, s.clock, r.value));
    } else if op.tokenRequest.code.Some? {
      ReplayGrows(s.history, op.tokenRequest.code.value);
    }
  }

  lemma FirstUnused(used: set<string>, uuid: nat -> string, n: nat)
    requires n > 0
    ensures Unused(used, uuid, n) ==> uuid(0) !in used
  {
  }

  lemma CodeStepsGrow(env: Env, s: Sys, op: Op)
    requires Codes(env, s)
    requires op.Tick? || op.Push? || op.Decision? || op.Token?
    ensures Grows(s.history, Step(env, s, op).history)
  {
    hide Codes, Grows, PushStep, DecisionStep, TokenOpStep, OfferStep, RedeemPreStep, MintPreStep, NonceStep,
         AuthorizeStep, BeginStep,
         ConsumeStep, IssueNextStep, FinishStep, ManageStep;
    if op.Tick? { SameGrows(s.history); }
    if op.Push? { PushGrows(env, s, op); }
    if op.Decision? { DecisionGrows(env, s, op); }
    if op.Token? { TokenGrows(env, s, op); }
  }

  lemma OfferGrows(env: Env, s: Sys, op: Op)
    requires Offered(env, s) && op.Offer?
    ensures Grows(s.history, OfferStep(env, s, op).history)
  {
  }

  lemma MintPreGrows(env: Env, s: Sys, op: Op)
    requires Offered(env, s) && op.MintPre?
    ensures Grows(s.history, MintPreStep(s, op).history)
  {
  }

  /** The steps of credential requests, and calls of the status administration. */
  predicate ForCredentials(op: Op) {
    op.Authorize? || op.Begin? || op.Consume? || op.IssueNext? || op.Finish? || op.Manage?
  }

  lemma CredentialStepsGrow(env: Env, s: Sys, op: Op)
    requires ForCredentials(op)
    ensures Grows(s.history, Step(env, s, op).history)
  {
    hide AuthorizeStep, BeginStep, ConsumeStep, IssueNextStep, FinishStep, ManageStep, SameCodes, SameOffers;
    if op.Authorize? { AuthorizeLeaves(env, s, op); }
    if op.Begin? { BeginLeaves(env, s, op); }
    if op.Consume? { ConsumeLeaves(env, s, op); }
    if op.IssueNext? { IssueNextLeaves(env, s, op); }
    if op.Finish? { FinishLeaves(s, op); }
    if op.Manage? { ManageLeaves(s, op); }
    HistoryKept(s, Step(env, s, op));
  }

  lemma HistoryKept(s: Sys, after: Sys)
    requires SameCodes(s, after) && SameOffers(s, after) && s.history.handed.Keys <= after.history.handed.Keys
    requires s.history.batches <= after.history.batches && s.history.failures <= after.history.failures
    ensures Grows(s.history, after.history)
  {
  }

  lemma NonceGrows(s: Sys, op: Op)
    ensures op.Nonce? ==> Grows(s.history, NonceStep(s, op).history)
    ensures op.RedeemPre? ==> Grows(s.history, RedeemPreStep(s, op).history)
  {
  }

  lemma OtherStepsGrow(env: Env, s: Sys, op: Op)
    requires Offered(env, s)
    requires !op.Tick? && !op.Push? && !op.Decision? && !op.Token?
    ensures Grows(s.history, Step(env, s, op).history)
  {
    hide Offered, Grows, PushStep, DecisionStep, TokenOpStep, OfferStep, RedeemPreStep, MintPreStep, NonceStep,
         AuthorizeStep, BeginStep,
         ConsumeStep, IssueNextStep, FinishStep, ManageStep;
    if op.Offer? { OfferGrows(env, s, op); }
    if op.Nonce? || op.RedeemPre? { NonceGrows(s, op); }
    if op.MintPre? { MintPreGrows(env, s, op); }
    if ForCredentials(op) { CredentialStepsGrow(env, s, op); }
  }

  lemma StepGrows(env: Env, s: Sys, op: Op)
    requires Codes(env, s) && Offered(env, s)
    ensures Grows(s.history, Step(env, s, op).history)
  {
    hide Codes, Offered, Step, Grows;
    if op.Tick? || op.Push? || op.Decision? || op.Token? { CodeStepsGrow(env, s, op); }
    if !op.Tick? && !op.Push? && !op.Decision? && !op.Token? { OtherStepsGrow(env, s, op); }
  }

  // ---- Each step keeps the tokens ------------------------------------------------------------------------

  /** Live tokens may go, and history may grow by things that are no tokens. */
  lemma TokensStay(metadata: Metadata, before: map<string, TokenEntry>, after: map<string, TokenEntry>, h: History,
                   g: History)
    requires TokensOk(metadata, before, h) && Grows(h, g) && Extends(after, before)
    requires g.redemptions == h.redemptions && g.preMints == h.preMints
    ensures TokensOk(metadata, after, g)
  {
  }

  /** One more live token. */
  lemma TokenAdded(metadata: Metadata, before: map<string, TokenEntry>, token: string, entry: TokenEntry, h: History,
                   g: History)
    requires TokensOk(metadata, before, h) && Grows(h, g) && TokenOk(metadata, token, entry, g)
    requires g.redemptions.Keys !! g.preMints.Keys
    ensures TokensOk(metadata, before[token := entry], g)
  {
  }

  /** A successful redemption. */
  lemma RedemptionKeepsTokens(env: Env, s: Sys, op: Op)
    requires Codes(env, s) && Offered(env, s) && Tokens(env, s) && op.Token?
    requires op.tokenRequest.grantType != PRE_AUTHORIZED_CODE
    requires TokenStep(env.issuer.lib, s.store, op.tokenRequest, op.ctx, op.uuids, s.clock).0.Ok?
    requires Unused(s.used, op.uuids, Needed(s.store, op.tokenRequest))
    ensures TokensOk(env.issuer.metadata, TokenOpStep(env, s, op).store.accessTokens, TokenOpStep(env, s, op).history)
  {
    hide TokenStep, TokenOk, CodeInv, MintedGrant, MintedResponse, Agree, Answers, Matches, Distinct, PreInv, Supported;
    RedeemedCode(env, s, op);
    TokenGrows(env, s, op);
    var after := TokenOpStep(env, s, op);
    var token := op.uuids(0);
    RedeemedTokenOk(env, s, op);
    TokensUsed(env, s);
    TokenAdded(env.issuer.metadata, s.store.accessTokens, token, after.store.accessTokens[token], s.history,
               after.history);
  }

  lemma TokensUsed(env: Env, s: Sys)
    requires Codes(env, s) && Offered(env, s)
    ensures s.history.redemptions.Keys <= s.used && s.history.preMints.Keys <= s.used
  {
  }

  lemma RedeemedTokenOk(env: Env, s: Sys, op: Op)
    requires Codes(env, s) && op.Token? && op.tokenRequest.grantType != PRE_AUTHORIZED_CODE
    requires TokenStep(env.issuer.lib, s.store, op.tokenRequest, op.ctx, op.uuids, s.clock).0.Ok?
    requires Unused(s.used, op.uuids, Needed(s.store, op.tokenRequest))
    ensures var after := TokenOpStep(env, s, op);
            var token := op.uuids(0);
            && token in after.store.accessTokens
            && after.store.accessTokens == s.store.accessTokens[token := after.store.accessTokens[token]]
            && TokenOk(env.issuer.metadata, token, after.store.accessTokens[token], after.history)
  {
    hide TokenStep, CodeInv, MintedGrant, MintedResponse, Agree, Announced, Answers, Distinct, Supported;
    RedeemedCode(env, s, op);
    var code := op.tokenRequest.code.value;
    var session := s.store.sessions[s.history.approvals[code].uri];
    SessionSupported(env, s, session.requestUri);
    DistinctPrefix(op.uuids, 1 + |session.configIds|, if session.viaDetails then |session.configIds| + 1 else 1);
    MintedAgree(env.issuer.metadata, session.configIds, session.viaDetails, op.ctx.jkt, op.uuids);
    MintedFields(session.configIds, session.viaDetails, op.ctx.jkt, op.uuids);
    MintedAnnounced(session.configIds, session.viaDetails, op.ctx.jkt, op.uuids,
                    TokenOpStep(env, s, op).store.accessTokens[op.uuids(0)], s.clock);
  }

  lemma MintedFields(ids: seq<string>, via: bool, jkt: Option<string>, uuid: nat -> string)
    ensures MintedGrant(ids, via, jkt, uuid).configIds == ids && MintedGrant(ids, via, jkt, uuid).dpopJkt == jkt
  {
  }

  lemma DistinctPrefix(uuid: nat -> string, n: nat, k: nat)
    requires Distinct(uuid, n) && k <= n
    ensures Distinct(uuid, k)
  {
  }

  lemma SessionSupported(env: Env, s: Sys, uri: string)
    requires Codes(env, s) && uri in s.history.pars
    ensures s.history.pars[uri].ids != [] && Supported(s.history.pars[uri].ids, env.issuer.metadata)
  {
  }

  lemma RedemptionKeepsRevocable(env: Env, s: Sys, op: Op)
    requires Codes(env, s) && Tokens(env, s) && op.Token? && op.tokenRequest.grantType != PRE_AUTHORIZED_CODE
    requires TokenStep(env.issuer.lib, s.store, op.tokenRequest, op.ctx, op.uuids, s.clock).0.Ok?
    requires Unused(s.used, op.uuids, Needed(s.store, op.tokenRequest))
    ensures var after := TokenOpStep(env, s, op);
            RevocableAll(after.store.accessTokens, after.store.tokensByCode, after.history)
            && ReplayedOk(after.store.sessions, after.history)
  {
    hide TokenStep, CodeInv, TokensOk, MintedGrant, MintedResponse, Answers, Matches, Distinct, SessionsOk, ApprovalsOk;
    RedeemedCode(env, s, op);
    SessionsAfterRedemption(env, s, op);
    var code := op.tokenRequest.code.value;
    NotRedeemed(env, s, code);
    assert code !in s.history.replayed;
    CodeTokensUsed(env, s);
  }

  lemma CodeTokensUsed(env: Env, s: Sys)
    requires Codes(env, s)
    ensures s.history.redemptions.Keys <= s.used
  {
  }

  /** A redemption that fails: a replayed code revokes its token, anything else changes nothing. */
  lemma FailedRedemption(env: Env, s: Sys, op: Op)
    requires op.Token? && op.tokenRequest.grantType != PRE_AUTHORIZED_CODE
    requires TokenStep(env.issuer.lib, s.store, op.tokenRequest, op.ctx, op.uuids, s.clock).0.Err?
    ensures var (r, store) := TokenStep(env.issuer.lib, s.store, op.tokenRequest, op.ctx, op.uuids, s.clock);
            if r.error == CodeConsumed then
              && op.tokenRequest.code.Some? && store == s.store.RevokeTokens(op.tokenRequest.code.value)
              && s.store.SessionByCode(op.tokenRequest.code.value).Some?
              && s.store.SessionByCode(op.tokenRequest.code.value).value.consumed
            else store == s.store
  {
  }

  /** Revoking what a consumed code minted. */
  lemma RevokingKeeps(env: Env, s: Sys, code: string)
    requires Codes(env, s) && Tokens(env, s)
    requires s.store.SessionByCode(code).Some? && s.store.SessionByCode(code).value.consumed
    ensures var store := s.store.RevokeTokens(code);
            var h := s.history.(replayed := s.history.replayed + {code});
            && RevocableAll(store.accessTokens, store.tokensByCode, h) && ReplayedOk(s.store.sessions, h)
            && Extends(store.accessTokens, s.store.accessTokens)
  {
    hide RedemptionsOk, OneTokenEach, CodesUsed, SessionsOk, TokensOk, ApprovalOk;
  }

  lemma ReplayKeepsTokens(env: Env, s: Sys, op: Op)
    requires Codes(env, s) && Tokens(env, s) && op.Token? && op.tokenRequest.grantType != PRE_AUTHORIZED_CODE
    requires TokenStep(env.issuer.lib, s.store, op.tokenRequest, op.ctx, op.uuids, s.clock).0.Err?
    requires Unused(s.used, op.uuids, Needed(s.store, op.tokenRequest))
    ensures Tokens(env, TokenOpStep(env, s, op))
  {
    hide TokenStep, Codes, TokensOk, RevocableAll, ReplayedOk, Grows, Unused, Needed;
    FailedRedemption(env, s, op);
    TokenGrows(env, s, op);
    var after := TokenOpStep(env, s, op);
    if TokenStep(env.issuer.lib, s.store, op.tokenRequest, op.ctx, op.uuids, s.clock).0.error == CodeConsumed {
      RevokingKeeps(env, s, op.tokenRequest.code.value);
      TokensStay(env.issuer.metadata, s.store.accessTokens, after.store.accessTokens, s.history, after.history);
    }
  }

  lemma MintPreKeepsTokens(env: Env, s: Sys, op: Op)
    requires Codes(env, s) && Offered(env, s) && Tokens(env, s) && op.MintPre?
    ensures Tokens(env, MintPreStep(s, op))
  {
    hide CodeInv, MintsOk, MintedGrant, MintedResponse, Agree, Announced, Distinct, TokensOk, Supported;
    if IsMinting(s.threads, op.tid) && Unused(s.used, op.uuids, 1) {
      var t := s.threads[op.tid];
      var after := MintPreStep(s, op);
      assert OfferOk(env.issuer.metadata, s.store.preAuthCodes[t.code], s.history.offers[t.code]);
      MintedAgree(env.issuer.metadata, t.ids, false, t.jkt, op.uuids);
      MintedFields(t.ids, false, t.jkt, op.uuids);
      MintedAnnounced(t.ids, false, t.jkt, op.uuids, after.store.accessTokens[op.uuids(0)], s.clock);
      MintPreGrows(env, s, op);
      TokensUsed(env, s);
      assert TokenOk(env.issuer.metadata, op.uuids(0), after.store.accessTokens[op.uuids(0)], after.history);
      KindsStayApart(env, s, op.uuids(0), after.history);
      TokenAdded(env.issuer.metadata, s.store.accessTokens, op.uuids(0), after.store.accessTokens[op.uuids(0)],
                 s.history, after.history);
    }
  }

  lemma KindsStayApart(env: Env, s: Sys, token: string, h: History)
    requires TokensOk(env.issuer.metadata, s.store.accessTokens, s.history)
    requires h.redemptions == s.history.redemptions && h.preMints.Keys == s.history.preMints.Keys + {token}
    requires token !in s.history.redemptions
    ensures h.redemptions.Keys !! h.preMints.Keys
  {
  }

  /** Steps that mint and revoke nothing. */
  lemma QuietStepKeepsTokens(env: Env, s: Sys, after: Sys)
    requires Tokens(env, s) && Grows(s.history, after.history)
    requires Extends(after.store.accessTokens, s.store.accessTokens)
    requires after.history.redemptions == s.history.redemptions && after.history.preMints == s.history.preMints
    requires after.history.replayed == s.history.replayed && after.store.tokensByCode == s.store.tokensByCode
    requires forall uri :: uri in s.store.sessions ==>
                 uri in after.store.sessions && (s.store.sessions[uri].consumed ==> after.store.sessions[uri].consumed)
    ensures Tokens(env, after)
  {
    hide TokenOk;
    TokensStay(env.issuer.metadata, s.store.accessTokens, after.store.accessTokens, s.history, after.history);
  }

  /** No token is minted or revoked, and no session loses its consumed mark. */
  ghost predicate Quiet(s: Sys, after: Sys) {
    && after.store.accessTokens == s.store.accessTokens
    && after.history.redemptions == s.history.redemptions && after.history.preMints == s.history.preMints
    && after.history.replayed == s.history.replayed && after.store.tokensByCode == s.store.tokensByCode
    && forall uri :: uri in s.store.sessions ==> uri in after.store.sessions
                                                 && (s.store.sessions[uri].consumed ==>
                                                       after.store.sessions[uri].consumed)
  }

  lemma NewSessionIsQuiet(s: Sys, after: Sys, uri: string, session: Session)
    requires uri !in s.store.sessions && after.store == s.store.(sessions := s.store.sessions[uri := session])
    requires after.history == s.history.(pars := after.history.pars)
    ensures Quiet(s, after)
  {
  }

  lemma NothingIsQuiet(s: Sys)
    ensures Quiet(s, s)
  {
  }

  lemma PushIsQuiet(env: Env, s: Sys, op: Op)
    requires Codes(env, s) && op.Push?
    ensures Quiet(s, PushStep(env, s, op))
  {
    hide Codes, Quiet, PushStep;
    var uri, session, p := PushOutcome(env, s, op);
    if PushStep(env, s, op) == s {
      NothingIsQuiet(s);
    } else {
      NewUri(env, s, op.uuid);
      NewSessionIsQuiet(s, PushStep(env, s, op), uri, session);
    }
  }

  lemma DecisionIsQuiet(env: Env, s: Sys, op: Op)
    requires op.Decision?
    ensures Quiet(s, DecisionStep(env, s, op))
  {
  }

  lemma DropExtends(before: map<string, TokenEntry>, after: map<string, TokenEntry>)
    requires after == before || exists token :: after == before - {token}
    ensures Extends(after, before)
  {
  }

  lemma OthersAreQuiet(env: Env, s: Sys, op: Op)
    requires op.Offer? || op.RedeemPre? || op.Nonce? || ForCredentials(op)
    ensures var after := Step(env, s, op);
            && Extends(after.store.accessTokens, s.store.accessTokens)
            && after.history.preMints == s.history.preMints && SameCodes(s, after)
  {
    hide SameCodes, SameEnded, SameStatus, Extends, PushStep, DecisionStep, TokenOpStep, OfferStep, RedeemPreStep,
         MintPreStep, NonceStep, AuthorizeStep, BeginStep,
         ConsumeStep, IssueNextStep, FinishStep, ManageStep;
    if op.Offer? { OfferLeaves(env, s, op); }
    if op.RedeemPre? { RedeemPreLeaves(env, s, op); }
    if op.Nonce? { NonceLeaves(env, s, op); }
    if op.Authorize? { AuthorizeLeaves(env, s, op); }
    if op.Begin? { BeginLeaves(env, s, op); }
    if op.Consume? { ConsumeLeaves(env, s, op); }
    if op.IssueNext? { IssueNextLeaves(env, s, op); }
    if op.Finish? { FinishLeaves(s, op); }
    if op.Manage? { ManageLeaves(s, op); }
    DropExtends(s.store.accessTokens, Step(env, s, op).store.accessTokens);
  }

  lemma StepKeepsTokens(env: Env, s: Sys, op: Op)
    requires Codes(env, s) && Offered(env, s) && Tokens(env, s)
    ensures Tokens(env, Step(env, s, op))
  {
    hide Codes, Offered, PushStep, DecisionStep, TokenStep, OfferStep, RedeemPreStep, MintPreStep, NonceStep,
         AuthorizeStep,
         BeginStep, ConsumeStep, IssueNextStep, FinishStep, ManageStep, Grows, TokensOk, RevocableAll, ReplayedOk,
         Unused;
    StepGrows(env, s, op);
    if op.Token? && op.tokenRequest.grantType != PRE_AUTHORIZED_CODE
       && Unused(s.used, op.uuids, Needed(s.store, op.tokenRequest)) {
      if TokenStep(env.issuer.lib, s.store, op.tokenRequest, op.ctx, op.uuids, s.clock).0.Ok? {
        RedemptionKeepsTokens(env, s, op);
        RedemptionKeepsRevocable(env, s, op);
      } else {
        ReplayKeepsTokens(env, s, op);
      }
    }
    if op.MintPre? { MintPreKeepsTokens(env, s, op); }
    if op.Push? { PushIsQuiet(env, s, op); }
    if op.Decision? { DecisionIsQuiet(env, s, op); }
    if op.Tick? || op.Push? || op.Decision? {
      QuietStepKeepsTokens(env, s, Step(env, s, op));
    }
    if !op.Tick? && !op.Push? && !op.Decision? && !op.Token? && !op.MintPre? {
      OthersAreQuiet(env, s, op);
      QuietStepKeepsTokens(env, s, Step(env, s, op));
    }
  }
}
