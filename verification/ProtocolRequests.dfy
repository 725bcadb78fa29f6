/** Requests as they arrive: their headers are read first, and what they prove decides who is served. */
module ProtocolRequests {
  import opened Wrappers
  import opened IssuerStore
  import opened Authorization
  import opened TokenEndpoint
  import opened Headers
  import opened Proofs
  import opened Protocol
  import opened ProtocolCodes
  import opened ProtocolTokens
  import opened ProtocolIssuance
  import opened ProtocolStatus
  import Status = StatusManagers

  /** A pushed request, the redemption of a code, the first half of redeeming an offer, or a step that
      takes nothing from headers but what it carries. */
  datatype Request =
    | PushRequest(headers: Headers, par: ParRequest, uuid: string, ids: seq<string>, via: bool)
    | CodeRequest(headers: Headers, token: TokenRequest, uuids: nat -> string)
    | OfferRequest(tid: nat, headers: Headers, token: TokenRequest)
    | Other(op: Op)

  function Context(env: Protocol.Env, path: string): DpopContext {
    DpopContext("POST", env.urlFor(path), None)
  }

  /** The caller of the token endpoint, unless a header fails. */
  function ReadCaller(env: Protocol.Env, headers: Headers, store: Store, now: int): (Option<TokenContext>, Store) {
    var (client, heard) := ReadClient(env.ProofVerifier(), headers, store, now);
    if client.Err? then (None, heard)
    else
      var (jkt, after) := ReadDpop(env.ProofVerifier(), headers.dpop, Context(env, "/token"), heard, now);
      if jkt.Err? then (None, after) else (Some(TokenContext(client.value, jkt.value)), after)
  }

  /** A pushed request needs an attested client; its DPoP proof is looked at only then. */
  ghost function ArrivePush(env: Protocol.Env, s: Sys, r: Request): Sys
    requires r.PushRequest?
  {
    hide Step, ReadClient, ReadDpop;
    var (client, heard) := ReadClient(env.ProofVerifier(), r.headers, s.store, s.clock);
    if client.Err? || client.value.None? then s.(store := heard)
    else
      var (jkt, after) := ReadDpop(env.ProofVerifier(), r.headers.dpop, Context(env, "/authorize/par"), heard, s.clock);
      if jkt.Err? then s.(store := after)
      else Step(env, s.(store := after), Push(r.headers, r.par, client.value.value, jkt.value, r.uuid, r.ids, r.via))
  }

  ghost function ArriveCode(env: Protocol.Env, s: Sys, r: Request): Sys
    requires r.CodeRequest?
  {
    hide Step, ReadClient, ReadDpop;
    var (ctx, heard) := ReadCaller(env, r.headers, s.store, s.clock);
    if ctx.None? then s.(store := heard)
    else Step(env, s.(store := heard), Token(r.headers, r.token, ctx.value, r.uuids))
  }

  ghost function ArriveOffer(env: Protocol.Env, s: Sys, r: Request): Sys
    requires r.OfferRequest?
  {
    hide Step, ReadClient, ReadDpop;
    var (ctx, heard) := ReadCaller(env, r.headers, s.store, s.clock);
    if ctx.None? || r.token.grantType != PRE_AUTHORIZED_CODE || r.token.preAuthCode.None?
       || (r.token.clientId.Some? && ctx.value.client.Some? && r.token.clientId != ctx.value.client)
    then s.(store := heard)
    else Step(env, s.(store := heard), RedeemPre(r.tid, r.token.preAuthCode.value, r.token.txCode, ctx.value.jkt))
  }

  ghost function Arrive(env: Protocol.Env, s: Sys, r: Request): Sys {
    hide ArrivePush, ArriveCode, ArriveOffer, Step;
    match r
    case PushRequest(_, _, _, _, _) => ArrivePush(env, s, r)
    case CodeRequest(_, _, _) => ArriveCode(env, s, r)
    case OfferRequest(_, _, _) => ArriveOffer(env, s, r)
    case Other(op) => if op.Push? || op.Token? || op.RedeemPre? then s else Step(env, s, op)
  }

  ghost function Run(env: Protocol.Env, rs: seq<Request>): Sys {
    hide Arrive;
    if rs == [] then INIT else Arrive(env, Run(env, rs[..|rs| - 1]), rs[|rs| - 1])
  }

  // ---- What arrives is a step ---------------------------------------------------------------------------

  /** Only the cache of one-time identifiers differs. */
  predicate Heard(s: Sys, h: Sys) {
    h == s.(store := s.store.(seenJtis := h.store.seenJtis))
  }

  /** The headers prove who a step says it serves. */
  ghost predicate Proven(env: Protocol.Env, op: Op, now: int) {
    match op
    case Push(headers, _, client, _, _, _, _) => ClientProven(env.ProofVerifier(), headers, client, now)
    case Token(headers, _, ctx, _) =>
      && (ctx.client.Some? ==> ClientProven(env.ProofVerifier(), headers, ctx.client.value, now))
      && (ctx.jkt.Some? ==> KeyProven(env.ProofVerifier(), headers.dpop, Context(env, "/token"), ctx.jkt.value, now))
    case _ => true
  }

  /** Every request records identifiers at most, or does that and takes one step, for the caller its headers prove. */
  lemma ArrivalIsStep(env: Protocol.Env, s: Sys, r: Request) returns (h: Sys, op: Op)
    ensures Heard(s, h) && Proven(env, op, s.clock)
    ensures Arrive(env, s, r) == h || Arrive(env, s, r) == Step(env, h, op)
    ensures r.Other? && !r.op.Push? && !r.op.Token? && !r.op.RedeemPre? ==>
              h == s && op == r.op && Arrive(env, s, r) == Step(env, h, op)
  {
    hide Step, ReadClient, ReadDpop, ClientProven, KeyProven;
    h, op := s, Tick(0);
    match r
    case PushRequest(headers, par, uuid, ids, via) =>
      var (client, heard) := ReadClient(env.ProofVerifier(), headers, s.store, s.clock);
      ClientReadIsProven(env.ProofVerifier(), headers, s.store, s.clock);
      h := s.(store := heard);
      if client.Ok? && client.value.Some? {
        var (jkt, after) := ReadDpop(env.ProofVerifier(), headers.dpop, Context(env, "/authorize/par"), heard, s.clock);
        KeyReadIsProven(env.ProofVerifier(), headers.dpop, Context(env, "/authorize/par"), heard, s.clock);
        h := s.(store := after);
        if jkt.Ok? {
          op := Push(headers, par, client.value.value, jkt.value, uuid, ids, via);
        }
      }
    case CodeRequest(headers, token, uuids) =>
      CallerReadIsProven(env, headers, s.store, s.clock);
      var (ctx, heard) := ReadCaller(env, headers, s.store, s.clock);
      h := s.(store := heard);
      if ctx.Some? {
        op := Token(headers, token, ctx.value, uuids);
      }
    case OfferRequest(tid, headers, token) =>
      CallerReadIsProven(env, headers, s.store, s.clock);
      var (ctx, heard) := ReadCaller(env, headers, s.store, s.clock);
      h := s.(store := heard);
      if ctx.Some? && token.preAuthCode.Some? {
        op := RedeemPre(tid, token.preAuthCode.value, token.txCode, ctx.value.jkt);
      }
    case Other(o) =>
      if !o.Push? && !o.Token? && !o.RedeemPre? {
        op := o;
      }
  }

  lemma CallerReadIsProven(env: Protocol.Env, headers: Headers, store: Store, now: int)
    ensures var (ctx, after) := ReadCaller(env, headers, store, now);
            && after == store.(seenJtis := after.seenJtis)
            && (ctx.Some? && ctx.value.client.Some? ==>
                  ClientProven(env.ProofVerifier(), headers, ctx.value.client.value, now))
            && (ctx.Some? && ctx.value.jkt.Some? ==> KeyProven(env.ProofVerifier(), headers.dpop,
                                                               Context(env, "/token"), ctx.value.jkt.value, now))
  {
    hide ReadClient, ReadDpop, ClientProven, KeyProven;
    var v, context := env.ProofVerifier(), Context(env, "/token");
    ClientReadIsProven(v, headers, store, now);
    var (client, heard) := ReadClient(v, headers, store, now);
    KeyReadIsProven(v, headers.dpop, context, heard, now);
    var (jkt, after) := ReadDpop(v, headers.dpop, context, heard, now);
    assert client.Ok? && jkt.Ok? && jkt.value.Some? ==> KeyProven(v, headers.dpop, context, jkt.value.value, now);
  }

  // ---- Requests whose headers check out are handled -----------------------------------------------------

  /** The caller of the token endpoint is read iff both kinds of header are, one after the other. */
  lemma CallerReadIff(env: Protocol.Env, headers: Headers, store: Store, now: int, ctx: TokenContext)
    ensures ReadCaller(env, headers, store, now).0 == Some(ctx) <==>
            var (client, heard) := ReadClient(env.ProofVerifier(), headers, store, now);
            && client == Ok(ctx.client)
            && ReadDpop(env.ProofVerifier(), headers.dpop, DpopContext("POST", env.urlFor("/token"), None), heard,
                        now).0 == Ok(ctx.jkt)
  {
    hide ReadClient, ReadDpop;
  }

  lemma StepKinds(env: Protocol.Env, s: Sys, op: Op)
    ensures op.Push? ==> Step(env, s, op) == PushStep(env, s, op)
    ensures op.Token? ==> Step(env, s, op) == TokenOpStep(env, s, op)
    ensures op.RedeemPre? ==> Step(env, s, op) == RedeemPreStep(s, op)
  {
    hide PushStep, DecisionStep, TokenOpStep, OfferStep, RedeemPreStep, MintPreStep, NonceStep, AuthorizeStep,
         BeginStep, ConsumeStep, IssueNextStep, FinishStep, ManageStep;
  }

  lemma HeardStore(s: Sys, store: Store)
    requires store == s.store.(seenJtis := store.seenJtis)
    ensures Heard(s, s.(store := store))
  {
  }

  /** A pushed request with an attested client, and no DPoP proof or a good one, is handled for that client
      and key; without, it changes nothing but the cache of identifiers. */
  lemma PushArrives(env: Protocol.Env, s: Sys, r: Request)
    requires r.PushRequest?
    ensures var v := env.ProofVerifier();
            var (client, heard) := ReadClient(v, r.headers, s.store, s.clock);
            var context := DpopContext("POST", env.urlFor("/authorize/par"), None);
            var (jkt, after) := ReadDpop(v, r.headers.dpop, context, heard, s.clock);
            if client.Ok? && client.value.Some? && jkt.Ok? then
              Arrive(env, s, r)
              == PushStep(env, s.(store := after), Push(r.headers, r.par, client.value.value, jkt.value, r.uuid, r.ids,
                                                        r.via))
            else Heard(s, Arrive(env, s, r))
  {
    hide ReadClient, ReadDpop, PushStep, Step, Heard, ClientProven, KeyProven;
    var v := env.ProofVerifier();
    var (client, heard) := ReadClient(v, r.headers, s.store, s.clock);
    ClientReadIsProven(v, r.headers, s.store, s.clock);
    HeardStore(s, heard);
    if client.Ok? && client.value.Some? {
      var (jkt, after) := ReadDpop(v, r.headers.dpop, Context(env, "/authorize/par"), heard, s.clock);
      KeyReadIsProven(v, r.headers.dpop, Context(env, "/authorize/par"), heard, s.clock);
      HeardStore(s, after);
      if jkt.Ok? {
        StepKinds(env, s.(store := after), Push(r.headers, r.par, client.value.value, jkt.value, r.uuid, r.ids, r.via));
      }
    }
  }

  /** A code request whose headers check out is handled for the caller they prove. */
  lemma CodeArrives(env: Protocol.Env, s: Sys, r: Request)
    requires r.CodeRequest?
    ensures var (ctx, heard) := ReadCaller(env, r.headers, s.store, s.clock);
            if ctx.Some? then
              Arrive(env, s, r) == TokenOpStep(env, s.(store := heard), Token(r.headers, r.token, ctx.value, r.uuids))
            else Heard(s, Arrive(env, s, r))
  {
    hide ReadCaller, TokenOpStep, Step, Heard, ClientProven, KeyProven;
    var (ctx, heard) := ReadCaller(env, r.headers, s.store, s.clock);
    CallerReadIsProven(env, r.headers, s.store, s.clock);
    HeardStore(s, heard);
    if ctx.Some? {
      StepKinds(env, s.(store := heard), Token(r.headers, r.token, ctx.value, r.uuids));
    }
  }

  /** So is an offer's redemption, when it names an offer and no other client than the attested one. */
  lemma OfferArrives(env: Protocol.Env, s: Sys, r: Request)
    requires r.OfferRequest?
    ensures var (ctx, heard) := ReadCaller(env, r.headers, s.store, s.clock);
            if ctx.Some? && r.token.grantType == "urn:ietf:params:oauth:grant-type:pre-authorized_code"
               && r.token.preAuthCode.Some? && SameClient(r.token, ctx.value) then
              Arrive(env, s, r) == RedeemPreStep(s.(store := heard),
                                                 RedeemPre(r.tid, r.token.preAuthCode.value, r.token.txCode,
                                                           ctx.value.jkt))
            else Heard(s, Arrive(env, s, r))
  {
    hide ReadCaller, RedeemPreStep, Step, Heard, ClientProven, KeyProven;
    var (ctx, heard) := ReadCaller(env, r.headers, s.store, s.clock);
    CallerReadIsProven(env, r.headers, s.store, s.clock);
    HeardStore(s, heard);
    if ctx.Some? && r.token.preAuthCode.Some? {
      StepKinds(env, s.(store := heard), RedeemPre(r.tid, r.token.preAuthCode.value, r.token.txCode, ctx.value.jkt));
    }
  }

  // ---- Who is behind what happened ---------------------------------------------------------------------------

  /** An attestation and a proof by its key named the client of a pushed request. */
  ghost predicate PushProven(env: Protocol.Env, p: ParRecord) {
    ClientProven(env.ProofVerifier(), p.headers, p.client, p.at)
  }

  /** The same for a redemption, and a DPoP proof was by its key. */
  ghost predicate RedemptionProven(env: Protocol.Env, r: Redemption) {
    && ClientProven(env.ProofVerifier(), r.headers, r.client, r.at)
    && KeyProven(env.ProofVerifier(), r.headers.dpop, DpopContext("POST", env.urlFor("/token"), None), r.jkt, r.at)
  }

  ghost predicate Witnessed(env: Protocol.Env, s: Sys) {
    && (forall uri :: uri in s.history.pars ==> PushProven(env, s.history.pars[uri]))
    && (forall token :: token in s.history.redemptions ==> RedemptionProven(env, s.history.redemptions[token]))
  }

  lemma PushKeepsWitnessed(env: Protocol.Env, s: Sys, op: Op)
    requires Witnessed(env, s) && op.Push? && Proven(env, op, s.clock)
    ensures Witnessed(env, PushStep(env, s, op))
  {
    hide ClientProven, RedemptionProven, Resolves, CheckPar, NewSession;
  }

  lemma TokenKeepsWitnessed(env: Protocol.Env, s: Sys, op: Op)
    requires Codes(env, s) && Witnessed(env, s) && op.Token? && Proven(env, op, s.clock)
    ensures Witnessed(env, TokenOpStep(env, s, op))
  {
    hide CodeInv, TokenStep, TokenOpStep, RedemptionProven, PushProven;
    TokenRecords(env, s, op);
    var after := TokenOpStep(env, s, op);
    if after.history.redemptions != s.history.redemptions {
      var response := TokenStep(env.issuer.lib, s.store, op.tokenRequest, op.ctx, op.uuids, s.clock).0.value;
      CallerOfRedemption(env, s, op);
      RedeemedByCaller(env, op, s.clock, response);
    }
  }

  /** The one redemption a step may add. */
  lemma TokenRecords(env: Protocol.Env, s: Sys, op: Op)
    requires op.Token?
    ensures var after := TokenOpStep(env, s, op);
            && after.history.pars == s.history.pars
            && (after.history.redemptions == s.history.redemptions
                || (op.tokenRequest.grantType != PRE_AUTHORIZED_CODE
                    && var r := TokenStep(env.issuer.lib, s.store, op.tokenRequest, op.ctx, op.uuids, s.clock).0;
                       && r.Ok?
                       && after.history.redemptions
                          == s.history.redemptions[op.uuids(0) := RedemptionOf(op.headers, op.tokenRequest, op.ctx,
                                                                               s.clock, r.value)]))
  {
    hide TokenStep, RedemptionOf, Unused, Needed, AfterRedemption, AfterReplay;
    var (r, store) := TokenStep(env.issuer.lib, s.store, op.tokenRequest, op.ctx, op.uuids, s.clock);
    if r.Ok? {
      RedemptionRecord(s, op, store, r.value);
    }
    if op.tokenRequest.code.Some? {
      ReplayRecord(s, store, op.tokenRequest.code.value);
    }
  }

  lemma RedemptionRecord(s: Sys, op: Op, store: Store, response: TokenResponse)
    requires op.Token?
    ensures AfterRedemption(s, op, store, response).history
         == s.history.(redemptions := s.history.redemptions[op.uuids(0) := RedemptionOf(op.headers, op.tokenRequest,
                                                                                        op.ctx, s.clock, response)])
  {
    hide RedemptionOf, Needed, Taken;
  }

  lemma ReplayRecord(s: Sys, store: Store, code: string)
    ensures AfterReplay(s, store, code).history == s.history.(replayed := s.history.replayed + {code})
  {
  }

  lemma CallerOfRedemption(env: Protocol.Env, s: Sys, op: Op)
    requires op.Token? && op.tokenRequest.grantType != PRE_AUTHORIZED_CODE
    requires TokenStep(env.issuer.lib, s.store, op.tokenRequest, op.ctx, op.uuids, s.clock).0.Ok?
    ensures op.ctx.client.Some? && op.ctx.jkt.Some?
  {
    hide MintedGrant, MintedResponse, VerifyPkce;
  }

  lemma RedeemedByCaller(env: Protocol.Env, op: Op, now: int, response: TokenResponse)
    requires op.Token? && Proven(env, op, now) && op.ctx.client.Some? && op.ctx.jkt.Some?
    ensures RedemptionProven(env, RedemptionOf(op.headers, op.tokenRequest, op.ctx, now, response))
  {
    hide ClientProven, KeyProven;
  }

  lemma StepKeepsWitnessed(env: Protocol.Env, s: Sys, op: Op)
    requires Codes(env, s) && Witnessed(env, s) && Proven(env, op, s.clock)
    ensures Witnessed(env, Step(env, s, op))
  {
    hide Codes, PushProven, RedemptionProven, Proven, PushStep, TokenOpStep, DecisionStep, OfferStep, RedeemPreStep,
         MintPreStep, NonceStep,
         AuthorizeStep, BeginStep, ConsumeStep, IssueNextStep, FinishStep, ManageStep;
    if op.Push? { PushKeepsWitnessed(env, s, op); }
    if op.Token? { TokenKeepsWitnessed(env, s, op); }
    if op.Decision? { DecisionRecords(env, s, op); }
    if !op.Tick? && !op.Push? && !op.Decision? && !op.Token? { OthersLeaveCodes(env, s, op); }
  }

  lemma DecisionRecords(env: Protocol.Env, s: Sys, op: Op)
    requires op.Decision?
    ensures var after := DecisionStep(env, s, op);
            after.history.pars == s.history.pars && after.history.redemptions == s.history.redemptions
  {
    hide Decide;
  }

  // ---- All of it ------------------------------------------------------------------------------------------

  ghost predicate Inv(env: Protocol.Env, s: Sys) {
    && Codes(env, s) && Offered(env, s) && Tokens(env, s) && Nonces(s) && Timely(s) && Issuing(env, s) && Slots(env, s)
    && Witnessed(env, s)
  }

  lemma InitHolds(env: Protocol.Env)
    ensures Inv(env, INIT)
  {
    hide Codes, Offered, Tokens, Nonces, Timely, Issuing, Slots, Witnessed;
    NothingHappened(env);
    NothingIssued(env);
  }

  lemma NothingHappened(env: Protocol.Env)
    ensures Codes(env, INIT) && Offered(env, INIT) && Tokens(env, INIT) && Witnessed(env, INIT)
  {
    hide Status.Initial, SessionOk, ApprovalOk, RedemptionOk, OfferOk, TokenOk, PushProven, RedemptionProven;
  }

  lemma NothingIssued(env: Protocol.Env)
    ensures Nonces(INIT) && Timely(INIT) && Issuing(env, INIT) && Slots(env, INIT)
  {
    hide ThreadOk, BatchOk, FailureOk, ThreadSlots, BatchSlots, Stored, InLifetime;
  }

  lemma StepKeepsAll(env: Protocol.Env, s: Sys, op: Op)
    requires Inv(env, s) && Proven(env, op, s.clock)
    ensures Inv(env, Step(env, s, op))
  {
    hide Codes, Offered, Tokens, Nonces, Timely, Issuing, Slots, Witnessed, Proven, Step;
    StepKeepsCodes(env, s, op);
    StepKeepsOffers(env, s, op);
    StepKeepsTokens(env, s, op);
    StepKeepsNonces(env, s, op);
    StepKeepsTimely(env, s, op);
    StepKeepsIssuing(env, s, op);
    StepKeepsSlots(env, s, op);
    StepKeepsWitnessed(env, s, op);
  }

  /** The invariants do not look at the cache of identifiers. */
  lemma HeardKeepsAll(env: Protocol.Env, s: Sys, h: Sys)
    requires Inv(env, s) && Heard(s, h)
    ensures Inv(env, h) && h.history == s.history && h.clock == s.clock
  {
    hide CodeInv, PreInv, TokensOk, RevocableAll, ReplayedOk, NonceInv, Stored, InLifetime, ThreadOk, BatchOk,
         FailureOk, SlotInv, PushProven, RedemptionProven;
  }

  lemma ArrivalKeepsAll(env: Protocol.Env, s: Sys, r: Request)
    requires Inv(env, s)
    ensures Inv(env, Arrive(env, s, r)) && Grows(s.history, Arrive(env, s, r).history)
  {
    hide Codes, Offered, Tokens, Nonces, Timely, Issuing, Slots, Witnessed, Proven, Step, Arrive, Grows;
    var h, op := ArrivalIsStep(env, s, r);
    HeardKeepsAll(env, s, h);
    StepKeepsAll(env, h, op);
    StepGrows(env, h, op);
    SameGrows(s.history);
  }
}
