/** The issuer as a state machine: what each request does to the store, and a history nobody can read.
    Requests interleave between store calls, except that redeeming a code and deciding on a pushed
    request are one step each. Times are milliseconds on a clock that never goes back. */
module Protocol {
  import opened Wrappers
  import opened IssuerStore
  import opened Authorization
  import opened TokenEndpoint
  import opened CredentialIssuance
  import opened CredentialEndpoint
  import opened Headers
  import opened ResourceAccess
  import Jws
  import Proofs
  import Status = StatusManagers
  import StatusRuns

  /** The issuer and what it works with: URL syntax, key thumbprints, the attesters it trusts, and its
      own URLs by path. */
  datatype Env = Env(
    issuer: Issuer, validUrl: string -> bool, normalizeUrl: string -> Option<string>, thumbprint: Jws.Jwk -> string,
    trusted: seq<Proofs.Attester>, urlFor: string -> string)
  {
    function ProofVerifier(): Proofs.Verifier {
      Proofs.Verifier(Proofs.Env(issuer.lib, normalizeUrl, thumbprint), trusted, issuer.issuerUrl)
    }
  }

  // ---- History -------------------------------------------------------------------------------

  /** The records keep the headers a request came with: they are what shows who sent it. */
  datatype ParRecord = ParRecord(client: string, challenge: string, redirectUri: string, ids: seq<string>,
                                 via: bool, jkt: Option<string>, at: int, headers: Headers)

  datatype Approval = Approval(uri: string, at: int)

  datatype Redemption = Redemption(code: string, client: string, redirectUri: string, verifier: string,
                                   jkt: string, at: int, response: TokenResponse, headers: Headers)

  datatype PreMint = PreMint(code: string, jkt: Option<string>, at: int, response: TokenResponse)

  /** How a credential request was let in. */
  datatype Access = Access(authorization: string, dpop: seq<Option<string>>, at: int)

  /** A credential request that succeeded. */
  datatype Batch = Batch(token: string, jkt: Option<string>, access: Access, configId: string,
                         request: CredentialRequest, made: seq<Made>, nonces: set<string>, authorizedAt: int,
                         issuedAt: int)

  /** A status index of a list, and the credential it was drawn for: the position among the
      credentials of the request that consumed these nonces. */
  datatype Slot = Slot(list: StatusRuns.ListName, index: nat)

  datatype Owner = Owner(nonces: set<string>, position: nat)

  /** One that failed, and the nonces it had consumed by then. */
  datatype Failure = Failure(error: CredentialError, consumed: set<string>)

  /** What happened: pushed requests by `request_uri`, approvals by code, redemptions by access token,
      when each nonce was handed out and spent, and what each status index was drawn for. */
  datatype History = History(
    pars: map<string, ParRecord>, approvals: map<string, Approval>, redemptions: map<string, Redemption>,
    replayed: set<string>, offers: map<string, seq<string>>, preMints: map<string, PreMint>,
    handed: map<string, int>, spent: map<string, int>, drawn: map<Slot, Owner>,
    batches: seq<Batch>, failures: seq<Failure>)

  // ---- State ------------------------------------------------------------------------------------

  /** A request between two store calls. */
  datatype Thread =
    | Minting(code: string, ids: seq<string>, jkt: Option<string>)
    | Authorized(token: string, jkt: Option<string>, access: Access)
    | Consuming(token: string, jkt: Option<string>, access: Access, authorizedAt: int, prepared: Prepared,
                left: set<string>, consumed: set<string>, made: seq<Made>)

  datatype Sys = Sys(store: Store, status: Status.ManagerModel, clock: int, used: set<string>,
                     threads: map<nat, Thread>, history: History)

  const NOTHING: History := History(map[], map[], map[], {}, map[], map[], map[], map[], map[], [], [])

  const INIT: Sys := Sys(EMPTY, Status.Initial(), 0, {}, map[], NOTHING)

  /** The steps. Pushing and redeeming come with what their headers were read to say. */
  datatype Op =
    | Tick(ms: nat)
    | Push(headers: Headers, request: ParRequest, client: string, proofJkt: Option<string>, uuid: string,
           ids: seq<string>, via: bool)
    | Decision(uri: string, clientId: string, decision: string, uuid: string)
    | Token(headers: Headers, tokenRequest: TokenRequest, ctx: TokenContext, uuids: nat -> string)
    | Offer(configId: string, uuid: string)
    | RedeemPre(tid: nat, code: string, txCode: Option<string>, proofJkt: Option<string>)
    | MintPre(tid: nat, uuids: nat -> string)
    | Nonce(uuid: string)
    | Authorize(tid: nat, authorization: string, dpop: seq<Option<string>>)
    | Begin(tid: nat, credentialRequest: CredentialRequest)
    | Consume(tid: nat, nonce: string)
    | IssueNext(tid: nat, attempt: Attempt)
    | Finish(tid: nat)
    | Manage(call: Status.Op)

  const NONCE_TTL: nat := 300

  ghost predicate Unused(used: set<string>, uuid: nat -> string, n: nat) {
    Distinct(uuid, n) && forall i :: 0 <= i < n ==> uuid(i) !in used
  }

  function Taken(uuid: nat -> string, n: nat): set<string> {
    set i | 0 <= i < n :: uuid(i)
  }

  /** How many UUIDs redeeming this code draws: the token and one identifier for each detail. */
  function Needed(store: Store, request: TokenRequest): (n: nat)
    ensures n > 0
  {
    match request.code
    case None => 1
    case Some(code) =>
      match store.SessionByCode(code) case None => 1 case Some(session) => 1 + |session.configIds|
  }

  ghost function PushStep(env: Env, s: Sys, op: Op): Sys
    requires op.Push?
  {
    var jkt := CheckPar(op.request, op.client, op.proofJkt);
    if op.uuid in s.used || jkt.Err? || !Resolves(env.issuer.metadata, op.request, Ok((op.ids, op.via))) then s
    else
      var uri := URI_PREFIX + op.uuid;
      s.(store := s.store.StoreSession(uri, NewSession(op.request, uri, jkt.value, op.ids, op.via, s.clock)),
         used := s.used + {op.uuid},
         history := s.history.(pars := s.history.pars[uri :=
           ParRecord(op.client, op.request.codeChallenge, op.request.redirectUri, op.ids, op.via, jkt.value, s.clock,
                     op.headers)]))
  }

  ghost function DecisionStep(env: Env, s: Sys, op: Op): Sys
    requires op.Decision?
  {
    if op.uuid in s.used then s
    else
      var (r, store) := Decide(s.store, env.validUrl, op.uri, op.clientId, op.decision, op.uuid, s.clock);
      if r.Code? then
        s.(store := store, used := s.used + {op.uuid},
           history := s.history.(approvals := s.history.approvals[op.uuid := Approval(op.uri, s.clock)]))
      else s.(store := store)
  }

  /** A code became a token. */
  function AfterRedemption(s: Sys, op: Op, store: Store, response: TokenResponse): Sys
    requires op.Token?
  {
    s.(store := store, used := s.used + Taken(op.uuids, Needed(s.store, op.tokenRequest)),
       history := s.history.(redemptions := s.history.redemptions[op.uuids(0) := RedemptionOf(op.headers,
           op.tokenRequest, op.ctx, s.clock, response)]))
  }

  /** A code that had become a token was presented again. */
  function AfterReplay(s: Sys, store: Store, code: string): Sys {
    s.(store := store, history := s.history.(replayed := s.history.replayed + {code}))
  }

  ghost function TokenOpStep(env: Env, s: Sys, op: Op): Sys
    requires op.Token?
  {
    if op.tokenRequest.grantType == PRE_AUTHORIZED_CODE
       || !Unused(s.used, op.uuids, Needed(s.store, op.tokenRequest)) then s
    else
      var (r, store) := TokenStep(env.issuer.lib, s.store, op.tokenRequest, op.ctx, op.uuids, s.clock);
      match r
      case Ok(response) => AfterRedemption(s, op, store, response)
      case Err(e) =>
        if e == CodeConsumed && op.tokenRequest.code.Some? then AfterReplay(s, store, op.tokenRequest.code.value)
        else s.(store := store)
  }

  function Text(o: Option<string>): string {
    match o case Some(t) => t case None => ""
  }

  function RedemptionOf(headers: Headers, request: TokenRequest, ctx: TokenContext, at: int, response: TokenResponse)
    : Redemption
  {
    Redemption(Text(request.code), Text(ctx.client), Text(request.redirectUri), Text(request.codeVerifier),
               Text(ctx.jkt), at, response, headers)
  }

  function OfferStep(env: Env, s: Sys, op: Op): Sys
    requires op.Offer?
  {
    if op.uuid in s.used || op.configId !in env.issuer.metadata.supported then s
    else
      s.(store := s.store.StorePreAuth(op.uuid, None, [op.configId]), used := s.used + {op.uuid},
         history := s.history.(offers := s.history.offers[op.uuid := [op.configId]]))
  }

  function RedeemPreStep(s: Sys, op: Op): Sys
    requires op.RedeemPre?
  {
    if op.tid in s.threads then s
    else match s.store.Redeemable(op.code, op.txCode)
      case None => s
      case Some(ids) =>
        s.(store := s.store.RedeemPreAuth(op.code, op.txCode),
           threads := s.threads[op.tid := Minting(op.code, ids, op.proofJkt)])
  }

  ghost function MintPreStep(s: Sys, op: Op): Sys
    requires op.MintPre?
  {
    if op.tid !in s.threads || !s.threads[op.tid].Minting? || !Unused(s.used, op.uuids, 1) then s
    else
      var t := s.threads[op.tid];
      s.(store := s.store.StoreToken(op.uuids(0), MintedGrant(t.ids, false, t.jkt, op.uuids), ACCESS_TOKEN_TTL,
                                     s.clock),
         used := s.used + {op.uuids(0)}, threads := s.threads - {op.tid},
         history := s.history.(preMints := s.history.preMints[op.uuids(0) :=
           PreMint(t.code, t.jkt, s.clock, MintedResponse(t.ids, false, t.jkt, op.uuids))]))
  }

  function NonceStep(s: Sys, op: Op): Sys
    requires op.Nonce?
  {
    if op.uuid in s.used then s
    else s.(store := s.store.StoreNonce(op.uuid, NONCE_TTL, s.clock), used := s.used + {op.uuid},
            history := s.history.(handed := s.history.handed[op.uuid := s.clock]))
  }

  /** The key a live token is bound to. */
  function BoundKey(store: Store, token: string, now: int): Option<string> {
    match store.GrantAt(token, now) case Some(grant) => grant.dpopJkt case None => None
  }

  function AuthorizeStep(env: Env, s: Sys, op: Op): Sys
    requires op.Authorize?
  {
    var (r, store) := ResourceAccess.Authorize(env.ProofVerifier(), op.authorization, op.dpop,
                                               env.urlFor("/credential"), s.store, s.clock);
    match r
    case Err(_) => s.(store := store)
    case Ok(token) =>
      if op.tid in s.threads then s
      else s.(store := store,
              threads := s.threads[op.tid := Authorized(token, BoundKey(s.store, token, s.clock),
                                                        Access(op.authorization, op.dpop, s.clock))])
  }

  function Fail(s: Sys, tid: nat, error: CredentialError, consumed: set<string>): Sys {
    s.(threads := s.threads - {tid}, history := s.history.(failures := s.history.failures + [Failure(error, consumed)]))
  }

  function BeginStep(env: Env, s: Sys, op: Op): Sys
    requires op.Begin?
  {
    if op.tid !in s.threads || !s.threads[op.tid].Authorized? then s
    else
      var t := s.threads[op.tid];
      var looked := s.(store := s.store.AfterGrantAt(t.token, s.clock));
      match s.store.GrantAt(t.token, s.clock)
      case None => Fail(looked, op.tid, InvalidAccessToken, {})
      case Some(grant) =>
        match Prepare(env.issuer, op.credentialRequest, grant, s.clock)
        case Err(e) => Fail(looked, op.tid, e, {})
        case Ok(prepared) =>
          looked.(threads := s.threads[op.tid := Consuming(t.token, t.jkt, t.access, s.clock, prepared, prepared.nonces,
                                                           {}, [])])
  }

  function ConsumeStep(s: Sys, op: Op): Sys
    requires op.Consume?
  {
    if op.tid !in s.threads || !s.threads[op.tid].Consuming? || op.nonce !in s.threads[op.tid].left then s
    else
      var t := s.threads[op.tid];
      var after := s.(store := s.store.ConsumeNonce(op.nonce));
      if s.store.NonceValid(op.nonce, s.clock) then
        after.(threads := s.threads[op.tid := t.(left := t.left - {op.nonce}, consumed := t.consumed + {op.nonce})],
               history := s.history.(spent := s.history.spent[op.nonce := s.clock]))
      else Fail(after, op.tid, InvalidNonce, t.consumed)
  }

  /** What a try at a credential leaves: a status index is drawn even for a credential that then fails. */
  function Tried(env: Env, s: Sys, tid: nat, attempt: Attempt): Sys
    requires tid in s.threads && s.threads[tid].Consuming?
    requires s.threads[tid].prepared.configId in env.issuer.metadata.supported
  {
    var t := s.threads[tid];
    var config := env.issuer.metadata.supported[t.prepared.configId];
    s.(status := AfterAttempt(env.issuer, config, s.status, attempt),
       history := s.history.(drawn := if Refusal(env.issuer, config).None? && attempt.drawn.Some?
                                      then s.history.drawn[Slot(ListOf(config),
                                          attempt.drawn.value) := Owner(t.prepared.nonces, |t.made|)]
                                      else s.history.drawn))
  }

  /** The next key to issue to, when all nonces are consumed and keys are left. */
  predicate Issuable(env: Env, s: Sys, tid: nat) {
    && tid in s.threads && s.threads[tid].Consuming? && s.threads[tid].left == {}
    && |s.threads[tid].made| < |s.threads[tid].prepared.keys|
    && s.threads[tid].prepared.configId in env.issuer.metadata.supported
  }

  ghost function IssueNextStep(env: Env, s: Sys, op: Op): Sys
    requires op.IssueNext?
  {
    if !Issuable(env, s, op.tid) then s
    else
      var t := s.threads[op.tid];
      var config := env.issuer.metadata.supported[t.prepared.configId];
      var key := t.prepared.keys[|t.made|];
      if !Possible(env.issuer, config, key, s.status, op.attempt, s.clock) then s
      else
        var tried := Tried(env, s, op.tid, op.attempt);
        match Outcome(env.issuer, config, key, op.attempt, s.clock)
        case Err(e) => Fail(tried, op.tid, e, t.consumed)
        case Ok(c) =>
          tried.(threads := s.threads[op.tid := t.(made := t.made + [MadeBy(env.issuer, config, key, op.attempt,
                                                                            s.clock, c)])])
  }

  /** A request issued its credentials. */
  function FinishStep(s: Sys, op: Op): Sys
    requires op.Finish?
  {
    if op.tid !in s.threads || !s.threads[op.tid].Consuming? || s.threads[op.tid].left != {}
       || |s.threads[op.tid].made| != |s.threads[op.tid].prepared.keys| then s
    else
      var t := s.threads[op.tid];
      s.(threads := s.threads - {op.tid},
         history := s.history.(batches := s.history.batches +
           [Batch(t.token, t.jkt, t.access, t.prepared.configId, t.prepared.request, t.made, t.consumed, t.authorizedAt,
                  s.clock)]))
  }

  /** A call of the status administration: a revocation, a suspension or a reinstatement. */
  ghost function ManageStep(s: Sys, op: Op): Sys
    requires op.Manage?
  {
    if !Status.Sized(s.status) || !StatusRuns.Offered(op.call) then s else s.(status := AfterCall(s.status, op.call))
  }

  function AfterCall(m: Status.ManagerModel, call: Status.Op): Status.ManagerModel
    requires Status.Sized(m)
  {
    match call
    case Update(purpose, index, value) =>
      if index < Status.LIST_CAPACITY then
        m.With(purpose, m.List(purpose).(flags := m.List(purpose).flags[index := value],
                                         statuses := m.List(purpose).statuses[index := Status.Code(purpose, value)]))
      else m
    case RevokeMdoc(index) =>
      if index < Status.LIST_CAPACITY then m.(mdoc := m.mdoc.(statuses := m.mdoc.statuses[index := 1])) else m
    case _ => m
  }

  ghost function Step(env: Env, s: Sys, op: Op): Sys {
    hide PushStep, DecisionStep, TokenOpStep, OfferStep, RedeemPreStep, MintPreStep, NonceStep, AuthorizeStep,
         BeginStep,
         ConsumeStep, IssueNextStep, FinishStep, ManageStep;
    match op
    case Tick(ms) => s.(clock := s.clock + ms)
    case Push(_, _, _, _, _, _, _) => PushStep(env, s, op)
    case Decision(_, _, _, _) => DecisionStep(env, s, op)
    case Token(_, _, _, _) => TokenOpStep(env, s, op)
    case Offer(_, _) => OfferStep(env, s, op)
    case RedeemPre(_, _, _, _) => RedeemPreStep(s, op)
    case MintPre(_, _) => MintPreStep(s, op)
    case Nonce(_) => NonceStep(s, op)
    case Authorize(_, _, _) => AuthorizeStep(env, s, op)
    case Begin(_, _) => BeginStep(env, s, op)
    case Consume(_, _) => ConsumeStep(s, op)
    case IssueNext(_, _) => IssueNextStep(env, s, op)
    case Finish(_) => FinishStep(s, op)
    case Manage(_) => ManageStep(s, op)
  }

  /** Taken without anything between them, the two steps of a pre-authorized redemption are the
      token endpoint's handling of it. */
  lemma TwoStepsAreOne(env: Env, s: Sys, tid: nat, request: TokenRequest, ctx: TokenContext, uuids: nat -> string)
    requires request.grantType == PRE_AUTHORIZED_CODE && request.preAuthCode.Some? && tid !in s.threads
    requires Unused(s.used, uuids, 1)
    requires request.clientId == None || ctx.client == None || request.clientId == ctx.client
    ensures var redeemed := RedeemPreStep(s, RedeemPre(tid, request.preAuthCode.value, request.txCode, ctx.jkt));
            var minted := MintPreStep(redeemed, MintPre(tid, uuids));
            var (r, store) := TokenStep(env.issuer.lib, s.store, request, ctx, uuids, s.clock);
            && minted.store == store
            && (r.Ok? ==> uuids(0) in minted.history.preMints && minted.history.preMints[uuids(0)].response == r.value)
            && minted.threads == s.threads
  {
    hide MintedGrant, MintedResponse, Distinct, RedeemCode, Store.RedeemPreAuth, Store.StoreToken, Store.Redeemable;
    GrantTypesDiffer();
    var ids := s.store.Redeemable(request.preAuthCode.value, request.txCode);
    NothingRedeemed(s.store, request.preAuthCode.value, request.txCode);
    if ids.Some? {
      assert s.threads[tid := Minting(request.preAuthCode.value, ids.value, ctx.jkt)] - {tid} == s.threads;
    }
  }

  lemma NothingRedeemed(store: Store, code: string, txCode: Option<string>)
    ensures store.Redeemable(code, txCode).None? ==> store.RedeemPreAuth(code, txCode) == store
  {
  }

  // ---- What a step leaves alone -----------------------------------------------------------------

  /** The code side of the state: sessions, codes and what became of them. */
  ghost predicate SameCodes(s: Sys, after: Sys) {
    && after.store.sessions == s.store.sessions && after.store.codeToUri == s.store.codeToUri
    && after.history.pars == s.history.pars && after.history.approvals == s.history.approvals
    && after.history.redemptions == s.history.redemptions && after.history.replayed == s.history.replayed
    && after.store.tokensByCode == s.store.tokensByCode && after.clock == s.clock
  }

  /** The offers, and the tokens minted from them. */
  ghost predicate SameOffers(s: Sys, after: Sys) {
    && after.store.preAuthCodes == s.store.preAuthCodes
    && after.history.offers == s.history.offers && after.history.preMints == s.history.preMints
  }

  /** The status lists, and what their indices were drawn for. */
  ghost predicate SameStatus(s: Sys, after: Sys) {
    after.status == s.status && after.history.drawn == s.history.drawn
  }

  /** Nonces and status indices handed out, and credential requests that ended. */
  ghost predicate SameEnded(s: Sys, after: Sys) {
    && after.history.handed == s.history.handed && after.history.spent == s.history.spent && SameStatus(s, after)
    && after.history.batches == s.history.batches && after.history.failures == s.history.failures
  }

  lemma OfferLeaves(env: Env, s: Sys, op: Op)
    requires op.Offer?
    ensures var after := OfferStep(env, s, op);
            && SameCodes(s, after) && SameEnded(s, after) && after.store.accessTokens == s.store.accessTokens
            && after.store.nonces == s.store.nonces && after.threads == s.threads
            && after.history.preMints == s.history.preMints
            && after.used == s.used + (if after == s then {} else {op.uuid})
  {
  }

  lemma NonceLeaves(env: Env, s: Sys, op: Op)
    requires op.Nonce?
    ensures var after := NonceStep(s, op);
            && SameCodes(s, after) && SameOffers(s, after) && SameStatus(s, after)
            && after.store.accessTokens == s.store.accessTokens
            && after.threads == s.threads && after.history.batches == s.history.batches
            && after.history.failures == s.history.failures
            && s.used <= after.used
  {
  }

  lemma RedeemPreLeaves(env: Env, s: Sys, op: Op)
    requires op.RedeemPre?
    ensures var after := RedeemPreStep(s, op);
            && SameCodes(s, after) && SameEnded(s, after) && after.store.accessTokens == s.store.accessTokens
            && after.store.nonces == s.store.nonces && after.used == s.used
            && after.history.offers == s.history.offers && after.history.preMints == s.history.preMints
  {
  }

  lemma MintPreLeaves(env: Env, s: Sys, op: Op)
    requires op.MintPre?
    ensures var after := MintPreStep(s, op);
            && SameCodes(s, after) && SameEnded(s, after)
            && after.store.nonces == s.store.nonces && s.used <= after.used
            && after.store.preAuthCodes == s.store.preAuthCodes && after.history.offers == s.history.offers
  {
  }

  lemma AuthorizeLeaves(env: Env, s: Sys, op: Op)
    requires op.Authorize?
    ensures var after := AuthorizeStep(env, s, op);
            && SameCodes(s, after) && SameEnded(s, after) && SameOffers(s, after)
            && after.store.nonces == s.store.nonces && after.used == s.used
            && (after.store.accessTokens == s.store.accessTokens
                || exists token :: after.store.accessTokens == s.store.accessTokens - {token})
  {
    hide ResourceAccess.Authorize, WellFormed, ResourceAccess.Credentials, ReadDpop;
    AccessIff(env.ProofVerifier(), op.authorization, op.dpop, env.urlFor("/credential"), s.store, s.clock);
  }

  lemma LookupLeaves(store: Store, token: string, now: int)
    ensures var after := store.AfterGrantAt(token, now);
            && after == store.(accessTokens := after.accessTokens)
            && (after.accessTokens == store.accessTokens || after.accessTokens == store.accessTokens - {token})
  {
  }

  /** Nothing changes but live tokens, threads and failures. */
  lemma RequestLeaves(s: Sys, after: Sys)
    requires after == s.(store := s.store.(accessTokens := after.store.accessTokens), threads := after.threads,
                         history := s.history.(failures := after.history.failures))
    ensures SameCodes(s, after) && SameOffers(s, after) && SameStatus(s, after)
  {
  }

  lemma BeginLeaves(env: Env, s: Sys, op: Op)
    requires op.Begin?
    ensures var after := BeginStep(env, s, op);
            && SameCodes(s, after) && SameOffers(s, after) && SameStatus(s, after) && after.used == s.used
            && after.store.nonces == s.store.nonces
            && after.history.handed == s.history.handed && after.history.spent == s.history.spent
            && after.history.batches == s.history.batches
            && s.history.failures <= after.history.failures
            && (after.store.accessTokens == s.store.accessTokens
                || exists token :: after.store.accessTokens == s.store.accessTokens - {token})
  {
    hide Prepare, Store.GrantAt, Store.AfterGrantAt, SameCodes, SameOffers, SameStatus;
    if op.tid in s.threads && s.threads[op.tid].Authorized? {
      LookupLeaves(s.store, s.threads[op.tid].token, s.clock);
    }
    RequestLeaves(s, BeginStep(env, s, op));
  }

  lemma ConsumeLeaves(env: Env, s: Sys, op: Op)
    requires op.Consume?
    ensures var after := ConsumeStep(s, op);
            && SameCodes(s, after) && SameOffers(s, after) && SameStatus(s, after) && after.used == s.used
            && after.store.accessTokens == s.store.accessTokens
            && after.history.handed == s.history.handed && after.history.batches == s.history.batches
            && s.history.failures <= after.history.failures
            && (after == s || after.store.nonces == s.store.nonces - {op.nonce})
  {
  }

  lemma IssueNextLeaves(env: Env, s: Sys, op: Op)
    requires op.IssueNext?
    ensures var after := IssueNextStep(env, s, op);
            && SameCodes(s, after) && SameOffers(s, after) && after.used == s.used && after.store == s.store
            && after.history.handed == s.history.handed && after.history.spent == s.history.spent
            && after.history.batches == s.history.batches && s.history.failures <= after.history.failures
  {
    hide Possible, Outcome, AfterAttempt;
  }

  lemma FinishLeaves(s: Sys, op: Op)
    requires op.Finish?
    ensures var after := FinishStep(s, op);
            && SameCodes(s, after) && SameOffers(s, after) && SameStatus(s, after) && after.used == s.used
            && after.store == s.store
            && after.history.handed == s.history.handed && after.history.spent == s.history.spent
            && s.history.batches <= after.history.batches && after.history.failures == s.history.failures
  {
  }

  lemma ManageLeaves(s: Sys, op: Op)
    requires op.Manage?
    ensures var after := ManageStep(s, op);
            && SameCodes(s, after) && SameOffers(s, after)
            && after.used == s.used && after.store == s.store && after.threads == s.threads
            && after.history == s.history
  {
  }

  /** Only four kinds of step change anything on the code side. */
  lemma OthersLeaveCodes(env: Env, s: Sys, op: Op)
    requires !op.Tick? && !op.Push? && !op.Decision? && !op.Token?
    ensures SameCodes(s, Step(env, s, op)) && s.used <= Step(env, s, op).used
  {
    hide PushStep, DecisionStep, TokenOpStep, OfferStep, NonceStep, RedeemPreStep, MintPreStep, AuthorizeStep,
         BeginStep, ConsumeStep,
         IssueNextStep, FinishStep, ManageStep, SameCodes, SameOffers, SameEnded, SameStatus;
    match op {
      case Offer(_, _) => OfferLeaves(env, s, op);
      case Nonce(_) => NonceLeaves(env, s, op);
      case RedeemPre(_, _, _, _) => RedeemPreLeaves(env, s, op);
      case MintPre(_, _) => MintPreLeaves(env, s, op);
      case Authorize(_, _, _) => AuthorizeLeaves(env, s, op);
      case Begin(_, _) => BeginLeaves(env, s, op);
      case Consume(_, _) => ConsumeLeaves(env, s, op);
      case IssueNext(_, _) => IssueNextLeaves(env, s, op);
      case Finish(_) => FinishLeaves(s, op);
      case Manage(_) => ManageLeaves(s, op);
    }
  }
}
