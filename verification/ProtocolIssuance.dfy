/** Invariants of the protocol: nonces, credential requests in flight and what was issued. */
module ProtocolIssuance {
  import opened Wrappers
  import opened IssuerStore
  import opened Authorization
  import opened TokenEndpoint
  import opened CredentialIssuance
  import opened CredentialEndpoint
  import opened CredentialContents
  import opened Headers
  import opened ResourceAccess
  import opened Protocol
  import opened ProtocolCodes
  import opened ProtocolTokens
  import Jws
  import Proofs
  import Status = StatusManagers

  predicate IsConsuming(threads: map<nat, Thread>, tid: nat) {
    tid in threads && threads[tid].Consuming?
  }

  // ---- Nonces ------------------------------------------------------------------------------------

  /** A set of consumed nonces: handed out once, gone from the store. */
  ghost predicate Spent(nonces: map<string, NonceEntry>, given: set<string>, consumed: set<string>) {
    consumed <= given && consumed !! nonces.Keys
  }

  ghost predicate BatchesApart(batches: seq<Batch>) {
    forall i, j :: 0 <= i < j < |batches| ==> batches[i].nonces !! batches[j].nonces
  }

  ghost predicate ThreadsApart(threads: map<nat, Thread>) {
    forall i, j :: IsConsuming(threads, i) && IsConsuming(threads, j) && i != j ==>
        threads[i].consumed !! threads[j].consumed
  }

  ghost predicate ThreadsBatchesApart(threads: map<nat, Thread>, batches: seq<Batch>) {
    forall i, k :: IsConsuming(threads, i) && 0 <= k < |batches| ==> threads[i].consumed !! batches[k].nonces
  }

  ghost predicate AllSpent(nonces: map<string, NonceEntry>, given: set<string>, threads: map<nat, Thread>,
                           batches: seq<Batch>) {
    && (forall i :: IsConsuming(threads, i) ==> Spent(nonces, given, threads[i].consumed))
    && (forall k :: 0 <= k < |batches| ==> Spent(nonces, given, batches[k].nonces))
  }

  ghost predicate NonceInv(nonces: map<string, NonceEntry>, given: set<string>, threads: map<nat, Thread>,
                           batches: seq<Batch>, used: set<string>) {
    && nonces.Keys <= given <= used
    && AllSpent(nonces, given, threads, batches)
    && BatchesApart(batches) && ThreadsApart(threads) && ThreadsBatchesApart(threads, batches)
  }

  ghost predicate Nonces(s: Sys) {
    NonceInv(s.store.nonces, s.history.handed.Keys, s.threads, s.history.batches, s.used)
  }

  lemma NonceKeepsNonces(s: Sys, op: Op)
    requires Nonces(s) && op.Nonce?
    ensures Nonces(NonceStep(s, op))
  {
  }

  /** One nonce is consumed by one request: it was in the store, so it is in nobody's consumed set. */
  lemma ConsumeKeepsApart(s: Sys, tid: nat, nonce: string)
    requires Nonces(s) && IsConsuming(s.threads, tid) && nonce in s.store.nonces
    ensures var t := s.threads[tid];
            var threads := s.threads[tid := t.(left := t.left - {nonce}, consumed := t.consumed + {nonce})];
            && ThreadsApart(threads) && ThreadsBatchesApart(threads, s.history.batches)
            && AllSpent(s.store.nonces - {nonce}, s.history.handed.Keys, threads, s.history.batches)
  {
  }

  lemma DropKeepsNonces(s: Sys, nonces: map<string, NonceEntry>, threads: map<nat, Thread>)
    requires Nonces(s) && nonces.Keys <= s.store.nonces.Keys
    requires forall i :: IsConsuming(threads, i) ==>
               || threads[i].consumed == {}
               || (IsConsuming(s.threads, i) && threads[i].consumed == s.threads[i].consumed)
    ensures NonceInv(nonces, s.history.handed.Keys, threads, s.history.batches, s.used)
  {
  }

  lemma ConsumeKeepsNonces(s: Sys, op: Op)
    requires Nonces(s) && op.Consume?
    ensures Nonces(ConsumeStep(s, op))
  {
    hide AllSpent, BatchesApart, ThreadsApart, ThreadsBatchesApart;
    if IsConsuming(s.threads, op.tid) && op.nonce in s.threads[op.tid].left {
      if s.store.NonceValid(op.nonce, s.clock) {
        ConsumeKeepsApart(s, op.tid, op.nonce);
      } else {
        DropKeepsNonces(s, s.store.nonces - {op.nonce}, s.threads - {op.tid});
      }
    }
  }

  lemma BatchAdded(s: Sys, tid: nat, batch: Batch)
    requires Nonces(s) && IsConsuming(s.threads, tid) && batch.nonces == s.threads[tid].consumed
    ensures NonceInv(s.store.nonces, s.history.handed.Keys, s.threads - {tid}, s.history.batches + [batch], s.used)
  {
  }

  lemma FinishOutcome(s: Sys, op: Op)
    requires op.Finish?
    ensures var after := FinishStep(s, op);
            || after == s
            || (IsConsuming(s.threads, op.tid) && after.threads == s.threads - {op.tid}
                && |after.history.batches| == |s.history.batches| + 1
                && var b := after.history.batches[|s.history.batches|];
                   b.nonces == s.threads[op.tid].consumed && b.made == s.threads[op.tid].made
                   && after.history.batches == s.history.batches + [b])
  {
  }

  lemma FinishKeepsNonces(s: Sys, op: Op)
    requires Nonces(s) && op.Finish?
    ensures Nonces(FinishStep(s, op))
  {
    hide NonceInv, FinishStep, SameOffers;
    FinishOutcome(s, op);
    FinishLeaves(s, op);
    var after := FinishStep(s, op);
    if after != s {
      BatchAdded(s, op.tid, after.history.batches[|s.history.batches|]);
    }
  }

  /** Steps that consume nothing; a request that starts consuming has consumed nothing yet. */
  lemma QuietKeepsNonces(s: Sys, after: Sys)
    requires Nonces(s) && s.used <= after.used && after.store.nonces == s.store.nonces
    requires after.history.handed.Keys == s.history.handed.Keys && after.history.batches == s.history.batches
    requires forall i :: IsConsuming(after.threads, i) ==>
               after.threads[i].consumed == {} || (IsConsuming(s.threads, i)
                                                   && after.threads[i].consumed == s.threads[i].consumed)
    ensures Nonces(after)
  {
  }

  lemma BeginThreads(env: Env, s: Sys, op: Op)
    requires op.Begin?
    ensures var after := BeginStep(env, s, op);
            forall i :: IsConsuming(after.threads, i) ==>
              after.threads[i].consumed == {} || (IsConsuming(s.threads, i)
                                                  && after.threads[i].consumed == s.threads[i].consumed)
  {
  }

  /** A try at a credential consumes nothing. */
  lemma IssueNextThreads(env: Env, s: Sys, op: Op)
    requires op.IssueNext?
    ensures var after := IssueNextStep(env, s, op);
            forall i :: IsConsuming(after.threads, i) ==>
                IsConsuming(s.threads, i) && after.threads[i].consumed == s.threads[i].consumed
  {
    hide Possible, Outcome, AfterAttempt, MadeBy;
  }

  lemma OtherThreads(env: Env, s: Sys, op: Op)
    ensures op.Authorize? ==> forall i :: IsConsuming(AuthorizeStep(env, s, op).threads, i) ==>
              IsConsuming(s.threads, i) && AuthorizeStep(env, s, op).threads[i] == s.threads[i]
    ensures op.RedeemPre? ==> forall i :: IsConsuming(RedeemPreStep(s, op).threads, i) ==>
              IsConsuming(s.threads, i) && RedeemPreStep(s, op).threads[i] == s.threads[i]
    ensures op.MintPre? ==> forall i :: IsConsuming(MintPreStep(s, op).threads, i) ==>
              IsConsuming(s.threads, i) && MintPreStep(s, op).threads[i] == s.threads[i]
  {
    hide ResourceAccess.Authorize;
  }

  lemma StepKeepsNonces(env: Env, s: Sys, op: Op)
    requires Nonces(s)
    ensures Nonces(Step(env, s, op))
  {
    hide Nonces, PushStep, DecisionStep, TokenOpStep, OfferStep, NonceStep, RedeemPreStep, MintPreStep, AuthorizeStep,
         BeginStep, ConsumeStep,
         IssueNextStep, FinishStep, ManageStep, SameOffers, SameCodes;
    OtherThreads(env, s, op);
    if op.Nonce? { NonceKeepsNonces(s, op); }
    if op.Consume? { ConsumeKeepsNonces(s, op); }
    if op.Finish? { FinishKeepsNonces(s, op); }
    if op.Tick? || op.Push? || op.Decision? || op.Token? { CodeStepsLeaveOffers(env, s, op); }
    if op.Offer? { OfferLeaves(env, s, op); }
    if op.RedeemPre? { RedeemPreLeaves(env, s, op); }
    if op.MintPre? { MintPreLeaves(env, s, op); }
    if op.Authorize? { AuthorizeLeaves(env, s, op); }
    if op.Begin? { BeginLeaves(env, s, op); BeginThreads(env, s, op); }
    if op.IssueNext? { IssueNextLeaves(env, s, op); IssueNextThreads(env, s, op); }
    if op.Manage? { ManageLeaves(s, op); }
    if !op.Nonce? && !op.Consume? && !op.Finish? {
      QuietKeepsNonces(s, Step(env, s, op));
    }
  }

  // ---- Nonces in time ------------------------------------------------------------------------------

  const NONCE_BOUND: int := 301 * SECOND

  /** A stored nonce is as it was handed out. */
  ghost predicate Stored(n: string, entry: NonceEntry, handed: map<string, int>, clock: int) {
    n in handed && entry == NonceEntry(handed[n], NONCE_TTL) && handed[n] <= clock
  }

  /** A spent nonce was spent within its lifetime. */
  ghost predicate InLifetime(n: string, handed: map<string, int>, spent: map<string, int>) {
    n in handed && n in spent && handed[n] <= spent[n] < handed[n] + NONCE_BOUND
  }

  ghost predicate Timely(s: Sys) {
    && (forall n :: n in s.store.nonces ==> Stored(n, s.store.nonces[n], s.history.handed, s.clock))
    && (forall n :: n in s.history.spent ==> InLifetime(n, s.history.handed, s.history.spent))
    && (forall k :: 0 <= k < |s.history.batches| ==> s.history.batches[k].nonces <= s.history.spent.Keys)
    && (forall tid :: IsConsuming(s.threads, tid) ==> s.threads[tid].consumed <= s.history.spent.Keys)
  }

  lemma ValidIsInTime(store: Store, n: string, now: int)
    requires store.NonceValid(n, now) && store.nonces[n].expiresIn == NONCE_TTL && store.nonces[n].createdAt <= now
    ensures now < store.nonces[n].createdAt + NONCE_BOUND
  {
  }

  lemma ConsumeKeepsTimely(s: Sys, op: Op)
    requires Timely(s) && op.Consume?
    ensures Timely(ConsumeStep(s, op))
  {
    hide Store.NonceValid;
    if IsConsuming(s.threads, op.tid) && op.nonce in s.threads[op.tid].left && s.store.NonceValid(op.nonce, s.clock) {
      ValidIsStored(s.store, op.nonce, s.clock);
      assert Stored(op.nonce, s.store.nonces[op.nonce], s.history.handed, s.clock);
      ValidIsInTime(s.store, op.nonce, s.clock);
    }
  }

  lemma ValidIsStored(store: Store, n: string, now: int)
    requires store.NonceValid(n, now)
    ensures n in store.nonces
  {
  }

  lemma NonceKeepsTimely(s: Sys, op: Op)
    requires Nonces(s) && Timely(s) && op.Nonce?
    ensures Timely(NonceStep(s, op))
  {
    hide AllSpent, BatchesApart, ThreadsApart, ThreadsBatchesApart;
  }

  lemma FinishKeepsTimely(s: Sys, op: Op)
    requires Timely(s) && op.Finish?
    ensures Timely(FinishStep(s, op))
  {
    hide FinishStep, Stored, InLifetime, SameOffers;
    FinishOutcome(s, op);
    FinishLeaves(s, op);
  }

  lemma QuietKeepsTimely(s: Sys, after: Sys)
    requires Timely(s) && after.store.nonces == s.store.nonces && s.clock <= after.clock
    requires after.history.handed == s.history.handed && after.history.spent == s.history.spent
    requires after.history.batches == s.history.batches
    requires forall i :: IsConsuming(after.threads, i) ==>
               after.threads[i].consumed == {} || (IsConsuming(s.threads, i)
                                                   && after.threads[i].consumed == s.threads[i].consumed)
    ensures Timely(after)
  {
    hide InLifetime;
  }

  lemma StepKeepsTimely(env: Env, s: Sys, op: Op)
    requires Nonces(s) && Timely(s)
    ensures Timely(Step(env, s, op))
  {
    hide Nonces, Timely, PushStep, DecisionStep, TokenOpStep, OfferStep, NonceStep, RedeemPreStep, MintPreStep,
         AuthorizeStep, BeginStep, ConsumeStep,
         IssueNextStep, FinishStep, ManageStep, SameOffers;
    OtherThreads(env, s, op);
    if op.Nonce? { NonceKeepsTimely(s, op); }
    if op.Consume? { ConsumeKeepsTimely(s, op); }
    if op.Finish? { FinishKeepsTimely(s, op); }
    if op.Tick? || op.Push? || op.Decision? || op.Token? { CodeStepsLeaveOffers(env, s, op); }
    if op.Offer? { OfferLeaves(env, s, op); }
    if op.RedeemPre? { RedeemPreLeaves(env, s, op); }
    if op.MintPre? { MintPreLeaves(env, s, op); }
    if op.Authorize? { AuthorizeLeaves(env, s, op); }
    if op.Begin? { BeginLeaves(env, s, op); BeginThreads(env, s, op); }
    if op.IssueNext? { IssueNextLeaves(env, s, op); IssueNextThreads(env, s, op); }
    if op.Manage? { ManageLeaves(s, op); }
    if !op.Nonce? && !op.Consume? && !op.Finish? {
      ClockForward(env, s, op);
      QuietKeepsTimely(s, Step(env, s, op));
    }
  }

  // ---- What a request may obtain -------------------------------------------------------------------

  /** The token was minted for this key, before `at`. */
  ghost predicate Bound(token: string, jkt: Option<string>, at: int, h: History) {
    || (token in h.redemptions && jkt == Some(h.redemptions[token].jkt) && h.redemptions[token].at <= at)
    || (token in h.preMints && jkt == h.preMints[token].jkt)
  }

  /** At `at`, the token entitled the bearer of the key to the configuration: it came from a code
      whose pushed request asked for it, or from an offer of it, and had not expired. */
  ghost predicate Entitled(token: string, jkt: Option<string>, configId: string, at: int, h: History) {
    || (token in h.redemptions
        && var r := h.redemptions[token];
        && r.code in h.approvals && h.approvals[r.code].uri in h.pars
        && jkt == Some(r.jkt) && configId in h.pars[h.approvals[r.code].uri].ids && r.at <= at < r.at + TOKEN_BOUND)
    || (token in h.preMints
        && var m := h.preMints[token];
        && m.code in h.offers && jkt == m.jkt && configId in h.offers[m.code] && at < m.at + TOKEN_BOUND)
  }

  /** The request names this configuration: by its id, or by an identifier that the token's response lists
      for it. */
  ghost predicate Named(request: CredentialRequest, token: string, configId: string, h: History) {
    || (request.identifier.None? && request.configId == Some(configId))
    || (request.configId.None? && request.identifier.Some?
        && ((token in h.redemptions && ResponseLists(h.redemptions[token].response, request.identifier.value, configId))
            || (token in h.preMints && ResponseLists(h.preMints[token].response, request.identifier.value, configId))))
  }

  ghost predicate ResponseLists(response: TokenResponse, identifier: string, configId: string) {
    response.details.Some? && Listed(response.details.value, identifier, configId)
  }

  /** Each key is one whose holder made the proof beside it. */
  ghost predicate FromProofs(issuer: Issuer, proofs: seq<string>, keys: seq<Jws.Jwk>, nonces: set<string>, at: int) {
    && |keys| == |proofs|
    && forall i :: 0 <= i < |proofs| ==> Proves(issuer, proofs[i], keys[i], nonces, at)
  }

  function BatchSize(metadata: Metadata): nat {
    if metadata.batchSize.Some? then metadata.batchSize.value else 1
  }

  /** The request came with this token under the scheme its key calls for, and with a proof by that key. */
  ghost predicate Accessed(env: Env, token: string, jkt: Option<string>, access: Access) {
    && ResourceAccess.Credentials(access.authorization).1 == token
    && match jkt
       case None => SameIgnoringCase(ResourceAccess.Credentials(access.authorization).0, "Bearer")
       case Some(key) =>
         && SameIgnoringCase(ResourceAccess.Credentials(access.authorization).0, "DPoP")
         && KeyProven(env.ProofVerifier(), access.dpop,
                      Proofs.DpopContext("POST", env.urlFor("/credential"), Some(token)), key, access.at)
  }

  /** Credential `i` was made for key `i`, from `from` on. */
  ghost predicate MadeFor(env: Env, configId: string, keys: seq<Jws.Jwk>, made: seq<Made>, from: int, clock: int) {
    && configId in env.issuer.metadata.supported && |made| <= |keys|
    && forall i :: 0 <= i < |made| ==>
         made[i].holder == keys[i] && from <= made[i].at <= clock
         && Genuine(env.issuer, env.issuer.metadata.supported[configId], made[i])
  }

  ghost predicate ThreadOk(env: Env, t: Thread, h: History, clock: int) {
    match t
    case Minting(_, _, _) => true
    case Authorized(token, jkt, access) => Bound(token, jkt, access.at, h) && Accessed(env, token, jkt, access)
    && access.at <= clock
    case Consuming(token, jkt, access, at, prepared, left, consumed, made) =>
      && Entitled(token, jkt, prepared.configId, at, h) && Bound(token, jkt, access.at, h)
      && Named(prepared.request, token, prepared.configId, h) && prepared.proofs == ProofsOf(prepared.request)
      && Accessed(env, token, jkt, access) && access.at <= at <= clock
      && FromProofs(env.issuer, prepared.proofs, prepared.keys, prepared.nonces, at)
      && |prepared.proofs| <= BatchSize(env.issuer.metadata)
      && left + consumed == prepared.nonces && prepared.nonces != {} && (made != [] ==> left == {})
      && MadeFor(env, prepared.configId, prepared.keys, made, at, clock)
  }

  ghost predicate BatchOk(env: Env, b: Batch, h: History, clock: int) {
    && Entitled(b.token, b.jkt, b.configId, b.authorizedAt, h) && Bound(b.token, b.jkt, b.access.at, h)
    && Accessed(env, b.token, b.jkt, b.access) && Named(b.request, b.token, b.configId, h)
    && b.access.at <= b.authorizedAt <= b.issuedAt <= clock
    && |b.made| == |ProofsOf(b.request)| <= BatchSize(env.issuer.metadata) && b.nonces != {}
    && b.configId in env.issuer.metadata.supported
    && forall i :: 0 <= i < |b.made| ==>
         && Proves(env.issuer, ProofsOf(b.request)[i], b.made[i].holder, b.nonces, b.authorizedAt)
         && b.authorizedAt <= b.made[i].at <= b.issuedAt
         && Genuine(env.issuer, env.issuer.metadata.supported[b.configId], b.made[i])
  }

  ghost predicate FailureOk(f: Failure) {
    f.error == InvalidProof ==> f.consumed == {}
  }

  ghost predicate Issuing(env: Env, s: Sys) {
    && (forall tid :: tid in s.threads ==> ThreadOk(env, s.threads[tid], s.history, s.clock))
    && (forall k :: 0 <= k < |s.history.batches| ==> BatchOk(env, s.history.batches[k], s.history, s.clock))
    && (forall k :: 0 <= k < |s.history.failures| ==> FailureOk(s.history.failures[k]))
  }

  lemma EntitledGrows(token: string, jkt: Option<string>, configId: string, at: int, h: History, g: History)
    requires Entitled(token, jkt, configId, at, h) && Grows(h, g)
    ensures Entitled(token, jkt, configId, at, g)
  {
  }

  lemma BoundGrows(token: string, jkt: Option<string>, at: int, h: History, g: History)
    requires Bound(token, jkt, at, h) && Grows(h, g)
    ensures Bound(token, jkt, at, g)
  {
  }

  lemma NamedGrows(request: CredentialRequest, token: string, configId: string, h: History, g: History)
    requires Named(request, token, configId, h) && Grows(h, g)
    ensures Named(request, token, configId, g)
  {
    hide Listed;
  }

  lemma MadeForLater(env: Env, t: Thread, clock: int, later: int)
    requires clock <= later
    ensures t.Consuming? && MadeFor(env, t.prepared.configId, t.prepared.keys, t.made, t.authorizedAt, clock) ==>
              MadeFor(env, t.prepared.configId, t.prepared.keys, t.made, t.authorizedAt, later)
  {
    hide Genuine;
  }

  lemma HoldsLater(t: Thread, h: History, g: History)
    requires Grows(h, g)
    ensures !t.Minting? && Bound(t.token, t.jkt, t.access.at, h) ==> Bound(t.token, t.jkt, t.access.at, g)
    ensures t.Consuming? && Entitled(t.token, t.jkt, t.prepared.configId, t.authorizedAt, h) ==>
              Entitled(t.token, t.jkt, t.prepared.configId, t.authorizedAt, g)
    ensures t.Consuming? && Named(t.prepared.request, t.token, t.prepared.configId, h) ==>
              Named(t.prepared.request, t.token, t.prepared.configId, g)
  {
    hide Listed;
  }

  lemma ThreadOkGrows(env: Env, t: Thread, h: History, g: History, clock: int, later: int)
    requires ThreadOk(env, t, h, clock) && Grows(h, g) && clock <= later
    ensures ThreadOk(env, t, g, later)
  {
    hide Grows, Accessed, FromProofs, MadeFor, Bound, Entitled, Named;
    MadeForLater(env, t, clock, later);
    HoldsLater(t, h, g);
  }

  lemma BatchOkGrows(env: Env, b: Batch, h: History, g: History, clock: int, later: int)
    requires BatchOk(env, b, h, clock) && Grows(h, g) && clock <= later
    ensures BatchOk(env, b, g, later)
  {
    hide Grows, Accessed, Proves, Genuine, Bound, Entitled, Named;
    NamedGrows(b.request, b.token, b.configId, h, g);
    EntitledGrows(b.token, b.jkt, b.configId, b.authorizedAt, h, g);
    BoundGrows(b.token, b.jkt, b.access.at, h, g);
  }

  /** Each thread is as it was or newly fine, and each new batch and failure is fine. */
  lemma IssuingStays(env: Env, s: Sys, after: Sys)
    requires Issuing(env, s) && Grows(s.history, after.history) && s.clock <= after.clock
    requires forall tid :: tid in after.threads ==>
               || (tid in s.threads && after.threads[tid] == s.threads[tid])
               || ThreadOk(env, after.threads[tid], after.history, after.clock)
    requires forall k :: |s.history.batches| <= k < |after.history.batches| ==>
                 BatchOk(env, after.history.batches[k], after.history, after.clock)
    requires forall k :: |s.history.failures| <= k < |after.history.failures| ==> FailureOk(after.history.failures[k])
    ensures Issuing(env, after)
  {
    hide ThreadOk, BatchOk, FailureOk, Extends;
    forall tid | tid in after.threads ensures ThreadOk(env, after.threads[tid], after.history, after.clock) {
      if tid in s.threads && after.threads[tid] == s.threads[tid] {
        ThreadOkGrows(env, s.threads[tid], s.history, after.history, s.clock, after.clock);
      }
    }
    forall k | 0 <= k < |after.history.batches| ensures BatchOk(env, after.history.batches[k], after.history,
                                                                after.clock) {
      if k < |s.history.batches| {
        BatchOkGrows(env, s.history.batches[k], s.history, after.history, s.clock, after.clock);
      }
    }
  }

  /** One request moves on. */
  lemma ThreadReplaced(env: Env, s: Sys, after: Sys, tid: nat, t: Thread)
    requires Issuing(env, s) && Grows(s.history, after.history) && s.clock <= after.clock
    requires after.threads == s.threads[tid := t] && ThreadOk(env, t, after.history, after.clock)
    requires after.history.batches == s.history.batches && after.history.failures == s.history.failures
    ensures Issuing(env, after)
  {
    hide ThreadOk, BatchOk, FailureOk, Grows, Issuing;
    IssuingStays(env, s, after);
  }

  /** One request fails, with its nonces as they were. */
  lemma ThreadFailed(env: Env, s: Sys, after: Sys, tid: nat, error: CredentialError, consumed: set<string>)
    requires Issuing(env, s) && Grows(s.history, after.history) && s.clock <= after.clock
    requires FailureOk(Failure(error, consumed))
    requires after.threads == s.threads - {tid} && after.history.batches == s.history.batches
    requires after.history.failures == s.history.failures + [Failure(error, consumed)]
    ensures Issuing(env, after)
  {
    hide ThreadOk, BatchOk, FailureOk, Grows, Issuing;
    IssuingStays(env, s, after);
  }

  lemma NothingNew(env: Env, s: Sys, after: Sys)
    requires Issuing(env, s) && Grows(s.history, after.history) && s.clock <= after.clock
    requires forall tid :: tid in after.threads ==> tid in s.threads && after.threads[tid] == s.threads[tid]
    requires after.history.batches == s.history.batches && after.history.failures == s.history.failures
    ensures Issuing(env, after)
  {
    hide ThreadOk, BatchOk, FailureOk, Grows, Issuing;
    IssuingStays(env, s, after);
  }

  /** Access to the resource: the token is live, and it came with what its key calls for. */
  lemma AccessedWhenAllowed(env: Env, store: Store, authorization: string, dpop: seq<Option<string>>, now: int)
    requires ResourceAccess.Authorize(env.ProofVerifier(), authorization, dpop, env.urlFor("/credential"), store,
                                      now).0.Ok?
    ensures var token := ResourceAccess.Authorize(env.ProofVerifier(), authorization, dpop, env.urlFor("/credential"),
                                                  store, now).0.value;
            && store.GrantAt(token, now).Some?
            && Accessed(env, token, BoundKey(store, token, now), Access(authorization, dpop, now))
  {
    hide SameIgnoringCase, ResourceAccess.Credentials, ReadDpop, KeyProven, Store.AfterGrantAt;
    var (scheme, token) := ResourceAccess.Credentials(authorization);
    KeyReadIsProven(env.ProofVerifier(), dpop, AccessContext(env.urlFor("/credential"), token),
                    store.AfterGrantAt(token, now), now);
  }

  /** A live token was minted for the key it is bound to. */
  lemma GrantBinds(env: Env, s: Sys, token: string)
    requires Codes(env, s) && Tokens(env, s) && s.store.GrantAt(token, s.clock).Some?
    ensures Bound(token, BoundKey(s.store, token, s.clock), s.clock, s.history)
  {
    hide SessionsOk, ApprovalsOk, OneTokenEach, CodesUsed, Answers, Agree, RevocableAll, ReplayedOk;
    if token in s.history.redemptions {
      assert RedemptionOk(env.issuer.lib, s.history.redemptions[token], s.store.sessions, s.history.pars,
                          s.history.approvals, s.clock);
    }
  }

  lemma AuthorizeOutcome(env: Env, s: Sys, op: Op)
    requires op.Authorize?
    ensures var after := AuthorizeStep(env, s, op);
            var r := ResourceAccess.Authorize(env.ProofVerifier(), op.authorization, op.dpop, env.urlFor("/credential"),
                                              s.store, s.clock).0;
            && after.history == s.history && after.clock == s.clock
            && (after.threads == s.threads
                || (r.Ok? && after.threads
                             == s.threads[op.tid := Authorized(r.value, BoundKey(s.store, r.value, s.clock),
                                                               Access(op.authorization, op.dpop, s.clock))]))
  {
    hide ResourceAccess.Authorize, BoundKey;
  }

  lemma AuthorizeKeepsIssuing(env: Env, s: Sys, op: Op)
    requires Codes(env, s) && Tokens(env, s) && Issuing(env, s) && op.Authorize?
    ensures Issuing(env, AuthorizeStep(env, s, op))
  {
    hide Codes, Tokens, Issuing, Grows, Bound, Accessed, ResourceAccess.Authorize, BoundKey, Store.GrantAt,
         AuthorizeStep;
    var after := AuthorizeStep(env, s, op);
    var r := ResourceAccess.Authorize(env.ProofVerifier(), op.authorization, op.dpop, env.urlFor("/credential"),
                                      s.store, s.clock).0;
    AuthorizeOutcome(env, s, op);
    SameGrows(s.history);
    if after.threads == s.threads {
      NothingNew(env, s, after);
    } else {
      AccessedWhenAllowed(env, s.store, op.authorization, op.dpop, s.clock);
      GrantBinds(env, s, r.value);
      ThreadReplaced(env, s, after, op.tid, after.threads[op.tid]);
    }
  }

  lemma PreparedOk(env: Env, request: CredentialRequest, grant: Grant, now: int)
    requires Prepare(env.issuer, request, grant, now).Ok?
    ensures var p := Prepare(env.issuer, request, grant, now).value;
            && p.configId in grant.configIds && p.configId in env.issuer.metadata.supported
            && FromProofs(env.issuer, p.proofs, p.keys, p.nonces, now)
            && |p.proofs| <= BatchSize(env.issuer.metadata) && p.nonces != {}
            && p.request == request && p.proofs == ProofsOf(request)
            && ResolveConfiguration(request, grant, env.issuer.metadata) == Ok(p.configId)
  {
    hide VerifyProofs, Proves, RequestedProofs;
    var p := Prepare(env.issuer, request, grant, now).value;
    KeysOfProofs(env.issuer, p.proofs, env.issuer.metadata.supported[p.configId], now);
  }

  /** A live grant covers only what the request or offer behind it did. */
  lemma GrantEntitles(env: Env, s: Sys, token: string, jkt: Option<string>, at: int, configId: string)
    requires Codes(env, s) && Tokens(env, s) && Bound(token, jkt, at, s.history)
    requires s.store.GrantAt(token, s.clock).Some? && configId in s.store.GrantAt(token, s.clock).value.configIds
    ensures Entitled(token, jkt, configId, s.clock, s.history)
  {
  }

  /** What a live grant resolves a request to is what the request names. */
  lemma GrantNames(env: Env, s: Sys, token: string, request: CredentialRequest, configId: string)
    requires Tokens(env, s) && s.store.GrantAt(token, s.clock).Some?
    requires ResolveConfiguration(request, s.store.GrantAt(token, s.clock).value, env.issuer.metadata) == Ok(configId)
    ensures Named(request, token, configId, s.history)
  {
    hide RevocableAll, ReplayedOk, Listed, ResolveConfiguration, Announced, Supported;
    var grant := s.store.GrantAt(token, s.clock).value;
    ResolvesIff(request, grant, env.issuer.metadata, configId);
    assert TokenOk(env.issuer.metadata, token, s.store.accessTokens[token], s.history);
    if request.configId.None? {
      ResolvesIff(ByIdentifier(request.identifier.value), grant, env.issuer.metadata, configId);
    }
  }

  lemma BeginOutcome(env: Env, s: Sys, op: Op)
    requires op.Begin?
    ensures var after := BeginStep(env, s, op);
            && after.clock == s.clock
            && (after == s
                || (op.tid in s.threads && s.threads[op.tid].Authorized?
                    && var t := s.threads[op.tid];
                       var grant := s.store.GrantAt(t.token, s.clock);
                       || (exists e :: after.threads == s.threads - {op.tid}
                             && after.history == s.history.(failures := s.history.failures + [Failure(e, {})]))
                       || (grant.Some? && Prepare(env.issuer, op.credentialRequest, grant.value, s.clock).Ok?
                           && var p := Prepare(env.issuer, op.credentialRequest, grant.value, s.clock).value;
                              && after.threads == s.threads[op.tid := Consuming(t.token, t.jkt, t.access, s.clock, p,
                                                                                p.nonces, {}, [])]
                              && after.history == s.history)))
  {
    hide Prepare, Store.GrantAt, Store.AfterGrantAt;
  }

  lemma FailureGrows(h: History, failure: Failure)
    ensures Grows(h, h.(failures := h.failures + [failure]))
  {
  }

  lemma BegunOk(env: Env, s: Sys, t: Thread, request: CredentialRequest)
    requires Codes(env, s) && Tokens(env, s) && t.Authorized? && ThreadOk(env, t, s.history, s.clock)
    requires s.store.GrantAt(t.token, s.clock).Some?
    requires Prepare(env.issuer, request, s.store.GrantAt(t.token, s.clock).value, s.clock).Ok?
    ensures var p := Prepare(env.issuer, request, s.store.GrantAt(t.token, s.clock).value, s.clock).value;
            ThreadOk(env, Consuming(t.token, t.jkt, t.access, s.clock, p, p.nonces, {}, []), s.history, s.clock)
  {
    hide Codes, Tokens, Bound, Accessed, Entitled, Prepare, FromProofs, Store.GrantAt, Named, ProofsOf,
         ResolveConfiguration;
    var grant := s.store.GrantAt(t.token, s.clock).value;
    PreparedOk(env, request, grant, s.clock);
    GrantEntitles(env, s, t.token, t.jkt, t.access.at, Prepare(env.issuer, request, grant, s.clock).value.configId);
    GrantNames(env, s, t.token, request, Prepare(env.issuer, request, grant, s.clock).value.configId);
  }

  lemma BeginKeepsIssuing(env: Env, s: Sys, op: Op)
    requires Codes(env, s) && Tokens(env, s) && Issuing(env, s) && op.Begin?
    ensures Issuing(env, BeginStep(env, s, op))
  {
    hide Codes, Tokens, Grows, Prepare, BatchOk, ThreadOk, Store.GrantAt, BeginStep;
    BeginOutcome(env, s, op);
    SameGrows(s.history);
    var after := BeginStep(env, s, op);
    if after != s {
      var t := s.threads[op.tid];
      if after.history == s.history {
        BegunOk(env, s, t, op.credentialRequest);
        ThreadReplaced(env, s, after, op.tid, after.threads[op.tid]);
      } else {
        var e :| after.history == s.history.(failures := s.history.failures + [Failure(e, {})]);
        FailureGrows(s.history, Failure(e, {}));
        ThreadFailed(env, s, after, op.tid, e, {});
      }
    }
  }

  lemma ConsumeOutcome(s: Sys, op: Op)
    requires op.Consume?
    ensures var after := ConsumeStep(s, op);
            && after.clock == s.clock
            && (after == s
                || (IsConsuming(s.threads, op.tid) && op.nonce in s.threads[op.tid].left
                    && var t := s.threads[op.tid];
                       || (&& after.threads == s.threads - {op.tid}
                           && after.history == s.history.(failures := s.history.failures + [Failure(InvalidNonce,
                                                                                                    t.consumed)]))
                       || (&& after.threads == s.threads[op.tid := t.(left := t.left - {op.nonce},
                                                                      consumed := t.consumed + {op.nonce})]
                           && after.history == s.history.(spent := s.history.spent[op.nonce := s.clock]))))
  {
    hide Store.NonceValid, Store.ConsumeNonce;
  }

  lemma ConsumedOk(env: Env, t: Thread, nonce: string, h: History, clock: int)
    requires t.Consuming? && nonce in t.left && ThreadOk(env, t, h, clock)
    ensures ThreadOk(env, t.(left := t.left - {nonce}, consumed := t.consumed + {nonce}), h, clock)
  {
    hide Entitled, Accessed, FromProofs, MadeFor, Named, ProofsOf;
  }

  lemma SpentGrows(env: Env, t: Thread, h: History, spent: map<string, int>, clock: int)
    ensures Grows(h, h.(spent := spent))
    ensures ThreadOk(env, t, h, clock) ==> ThreadOk(env, t, h.(spent := spent), clock)
  {
    hide Accessed, FromProofs, MadeFor, Listed, ProofsOf;
  }

  lemma ConsumeKeepsIssuing(env: Env, s: Sys, op: Op)
    requires Issuing(env, s) && op.Consume?
    ensures Issuing(env, ConsumeStep(s, op))
  {
    hide Grows, BatchOk, ThreadOk, ConsumeStep;
    ConsumeOutcome(s, op);
    var after := ConsumeStep(s, op);
    if after != s {
      var t := s.threads[op.tid];
      if after.threads == s.threads - {op.tid} {
        FailureGrows(s.history, Failure(InvalidNonce, t.consumed));
        ThreadFailed(env, s, after, op.tid, InvalidNonce, t.consumed);
      } else {
        ConsumedOk(env, t, op.nonce, s.history, s.clock);
        SpentGrows(env, after.threads[op.tid], s.history, s.history.spent[op.nonce := s.clock], s.clock);
        ThreadReplaced(env, s, after, op.tid, after.threads[op.tid]);
      }
    }
  }

  /** One more credential, for the next key. */
  lemma MadeExtends(env: Env, configId: string, keys: seq<Jws.Jwk>, made: seq<Made>, from: int, clock: int, m: Made)
    requires MadeFor(env, configId, keys, made, from, clock) && from <= m.at <= clock && |made| < |keys|
    requires m.holder == keys[|made|]
    requires Genuine(env.issuer, env.issuer.metadata.supported[configId], m)
    ensures MadeFor(env, configId, keys, made + [m], from, clock)
  {
    hide Genuine;
  }

  lemma IssueNextOutcome(env: Env, s: Sys, op: Op)
    requires op.IssueNext?
    ensures var after := IssueNextStep(env, s, op);
            && after.clock == s.clock
            && (after == s
                || (Protocol.Issuable(env, s, op.tid)
                    && var t := s.threads[op.tid];
                       var config := env.issuer.metadata.supported[t.prepared.configId];
                       var key := t.prepared.keys[|t.made|];
                       && Possible(env.issuer, config, key, s.status, op.attempt, s.clock)
                       && match Outcome(env.issuer, config, key, op.attempt, s.clock)
                          case Err(e) =>
                            && after.threads == s.threads - {op.tid}
                            && after.history == s.history.(drawn := after.history.drawn,
                                                           failures := s.history.failures + [Failure(e, t.consumed)])
                          case Ok(c) =>
                            && after.threads == s.threads[op.tid := t.(made := t.made + [MadeBy(env.issuer, config, key,
                                op.attempt, s.clock, c)])]
                            && after.history == s.history.(drawn := after.history.drawn)))
  {
    hide Possible, Outcome, AfterAttempt, MadeBy, Refusal;
  }

  lemma OutcomeError(env: Env, config: Configuration, key: Jws.Jwk, attempt: Attempt, now: int)
    requires LotOk(env.issuer, config, key, attempt, now) && Outcome(env.issuer, config, key, attempt, now).Err?
    ensures Outcome(env.issuer, config, key, attempt, now).error != InvalidProof
  {
    hide LotFits;
  }

  lemma DrawnGrows(env: Env, t: Thread, h: History, drawn: map<Slot, Owner>, clock: int)
    ensures Grows(h, h.(drawn := drawn))
    ensures forall f: Failure :: Grows(h, h.(drawn := drawn, failures := h.failures + [f]))
    ensures ThreadOk(env, t, h, clock) ==> ThreadOk(env, t, h.(drawn := drawn), clock)
  {
    hide Accessed, FromProofs, MadeFor, Listed, ProofsOf;
  }

  lemma MadeOk(env: Env, t: Thread, made: seq<Made>, h: History, clock: int)
    requires t.Consuming? && t.left == {} && ThreadOk(env, t, h, clock)
    requires MadeFor(env, t.prepared.configId, t.prepared.keys, made, t.authorizedAt, clock)
    ensures ThreadOk(env, t.(made := made), h, clock)
  {
    hide Entitled, Accessed, FromProofs, MadeFor, Named, ProofsOf;
  }

  lemma IssueNextKeepsIssuing(env: Env, s: Sys, op: Op)
    requires Issuing(env, s) && op.IssueNext?
    ensures Issuing(env, IssueNextStep(env, s, op))
  {
    hide Grows, BatchOk, IssueNextStep, Possible, Outcome, MadeBy, Entitled, Accessed, FromProofs, MadeFor;
    IssueNextOutcome(env, s, op);
    var after := IssueNextStep(env, s, op);
    if after != s {
      var t := s.threads[op.tid];
      assert ThreadOk(env, t, s.history, s.clock);
      var config := env.issuer.metadata.supported[t.prepared.configId];
      var key := t.prepared.keys[|t.made|];
      PossibleFits(env.issuer, config, key, s.status, op.attempt, s.clock);
      DrawnGrows(env, t, s.history, after.history.drawn, s.clock);
      match Outcome(env.issuer, config, key, op.attempt, s.clock)
      case Err(e) =>
        OutcomeError(env, config, key, op.attempt, s.clock);
        ThreadFailed(env, s, after, op.tid, e, t.consumed);
      case Ok(c) =>
        GenuineMade(env.issuer, config, key, s.status, op.attempt, s.clock);
        MadeExtends(env, t.prepared.configId, t.prepared.keys, t.made, t.authorizedAt, s.clock,
                    MadeBy(env.issuer, config, key, op.attempt, s.clock, c));
        MadeOk(env, t, after.threads[op.tid].made, after.history, s.clock);
        ThreadReplaced(env, s, after, op.tid, after.threads[op.tid]);
    }
  }

  lemma PossibleFits(issuer: Issuer, config: Configuration, key: Jws.Jwk, m: Status.ManagerModel, attempt: Attempt,
                     now: int)
    requires Possible(issuer, config, key, m, attempt, now)
    ensures LotOk(issuer, config, key, attempt, now)
  {
  }

  /** A request all of whose credentials are made becomes a batch. */
  lemma BatchOfThread(env: Env, t: Thread, h: History, clock: int)
    requires t.Consuming? && t.left == {} && |t.made| == |t.prepared.keys| && ThreadOk(env, t, h, clock)
    ensures BatchOk(env, Batch(t.token, t.jkt, t.access, t.prepared.configId, t.prepared.request, t.made, t.consumed,
                               t.authorizedAt, clock), h, clock)
  {
    hide Entitled, Accessed, Proves, Genuine, Named;
    assert t.consumed == t.prepared.nonces;
  }

  lemma BatchGrows(h: History, b: Batch)
    ensures Grows(h, h.(batches := h.batches + [b]))
  {
  }

  lemma FinishKeepsIssuing(env: Env, s: Sys, op: Op)
    requires Issuing(env, s) && op.Finish?
    ensures Issuing(env, FinishStep(s, op))
  {
    hide ThreadOk, BatchOk, Grows;
    var after := FinishStep(s, op);
    if after != s {
      var t := s.threads[op.tid];
      var batch := after.history.batches[|s.history.batches|];
      BatchOfThread(env, t, s.history, s.clock);
      BatchGrows(s.history, batch);
      BatchOkGrows(env, batch, s.history, after.history, s.clock, s.clock);
      IssuingStays(env, s, after);
    }
  }

  /** Credential requests are as they were. */
  ghost predicate RequestsStay(s: Sys, after: Sys) {
    && after.history.batches == s.history.batches && after.history.failures == s.history.failures
    && forall tid :: tid in after.threads ==> (tid in s.threads
                                               && after.threads[tid] == s.threads[tid]) || after.threads[tid].Minting?
  }

  lemma SameRequests(s: Sys, after: Sys)
    requires after.threads == s.threads && after.history.batches == s.history.batches
    requires after.history.failures == s.history.failures
    ensures RequestsStay(s, after)
  {
  }

  lemma OthersLeaveRequests(env: Env, s: Sys, op: Op)
    requires op.Manage? || !ForCredentials(op)
    ensures RequestsStay(s, Step(env, s, op))
  {
    hide RequestsStay, SameOffers, SameCodes, SameStatus, PushStep, DecisionStep, TokenOpStep, OfferStep, RedeemPreStep,
         MintPreStep, NonceStep, AuthorizeStep, BeginStep,
         ConsumeStep, IssueNextStep, FinishStep, ManageStep;
    if op.Tick? || op.Push? || op.Decision? || op.Token? {
      CodeStepsLeaveOffers(env, s, op);
      SameRequests(s, Step(env, s, op));
    }
    if op.Offer? { OfferLeaves(env, s, op); SameRequests(s, OfferStep(env, s, op)); }
    if op.Nonce? { NonceLeaves(env, s, op); SameRequests(s, NonceStep(s, op)); }
    if op.Manage? { ManageLeaves(s, op); SameRequests(s, ManageStep(s, op)); }
    if op.RedeemPre? || op.MintPre? { MintingLeavesRequests(env, s, op); }
  }

  lemma CodeStepsKeepIssuing(env: Env, s: Sys, op: Op)
    requires Codes(env, s) && Offered(env, s) && Issuing(env, s)
    requires op.Manage? || !ForCredentials(op)
    ensures Issuing(env, Step(env, s, op))
  {
    hide Codes, Offered, Issuing, Grows, ThreadOk, BatchOk, FailureOk, Step;
    StepGrows(env, s, op);
    ClockForward(env, s, op);
    OthersLeaveRequests(env, s, op);
    var after := Step(env, s, op);
    forall tid | tid in after.threads && after.threads[tid].Minting?
      ensures ThreadOk(env, after.threads[tid], after.history, after.clock)
    {
      MintingIsOk(env, after.threads[tid], after.history, after.clock);
    }
    IssuingStays(env, s, after);
  }

  lemma MintingLeavesRequests(env: Env, s: Sys, op: Op)
    ensures op.RedeemPre? ==> RequestsStay(s, RedeemPreStep(s, op))
    ensures op.MintPre? ==> RequestsStay(s, MintPreStep(s, op))
  {
  }

  lemma MintingIsOk(env: Env, t: Thread, h: History, clock: int)
    requires t.Minting?
    ensures ThreadOk(env, t, h, clock)
  {
    hide Bound, Accessed, Entitled, FromProofs, MadeFor;
  }

  lemma ClockForward(env: Env, s: Sys, op: Op)
    ensures s.clock <= Step(env, s, op).clock
  {
    hide Decide, TokenStep, MintedGrant, MintedResponse, Prepare, ResourceAccess.Authorize, Possible, Outcome,
         AfterAttempt, Resolves, CheckPar;
  }

  lemma StepKeepsIssuing(env: Env, s: Sys, op: Op)
    requires Codes(env, s) && Offered(env, s) && Tokens(env, s) && Issuing(env, s)
    ensures Issuing(env, Step(env, s, op))
  {
    hide Codes, Offered, Tokens, Issuing, PushStep, DecisionStep, TokenOpStep, OfferStep, NonceStep, RedeemPreStep,
         MintPreStep,
         AuthorizeStep, BeginStep, ConsumeStep, IssueNextStep, FinishStep, ManageStep;
    if op.Authorize? { AuthorizeKeepsIssuing(env, s, op); }
    if op.Begin? { BeginKeepsIssuing(env, s, op); }
    if op.Consume? { ConsumeKeepsIssuing(env, s, op); }
    if op.IssueNext? { IssueNextKeepsIssuing(env, s, op); }
    if op.Finish? { FinishKeepsIssuing(env, s, op); }
    if op.Manage? || !ForCredentials(op) { CodeStepsKeepIssuing(env, s, op); }
  }
}
