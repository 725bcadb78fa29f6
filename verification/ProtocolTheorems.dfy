/** What holds over every run of the issuer. */
module ProtocolTheorems {
  import opened Wrappers
  import opened IssuerStore
  import opened Authorization
  import opened TokenEndpoint
  import opened CredentialIssuance
  import opened CredentialEndpoint
  import opened CredentialContents
  import opened CredentialRequests
  import opened Headers
  import opened Protocol
  import opened ProtocolCodes
  import opened ProtocolTokens
  import opened ProtocolIssuance
  import opened ProtocolStatus
  import opened ProtocolRequests
  import Cose
  import Jws
  import Mdoc
  import MdocPresentation
  import Proofs
  import ResourceAccess
  import SdJwt
  import SdJwtTheorems
  import Status = StatusManagers
  import StatusRuns

  lemma {:induction false} RunKeepsAll(env: Env, rs: seq<Request>)
    ensures Inv(env, Run(env, rs))
  {
    hide Inv, Arrive;
    if rs == [] {
      InitHolds(env);
    } else {
      RunKeepsAll(env, rs[..|rs| - 1]);
      ArrivalKeepsAll(env, Run(env, rs[..|rs| - 1]), rs[|rs| - 1]);
    }
  }

  /** Whatever happens later, what happened stays. */
  lemma {:induction false} RunGrows(env: Env, rs: seq<Request>, more: seq<Request>)
    ensures Grows(Run(env, rs).history, Run(env, rs + more).history)
    decreases |more|
  {
    hide Inv, Arrive, Grows;
    if more == [] {
      assert rs + more == rs;
      SameGrows(Run(env, rs).history);
    } else {
      var init := more[..|more| - 1];
      assert (rs + more)[..|rs + more| - 1] == rs + init;
      RunGrows(env, rs, init);
      RunKeepsAll(env, rs + init);
      ArrivalKeepsAll(env, Run(env, rs + init), more[|more| - 1]);
      GrowsOn(Run(env, rs).history, Run(env, rs + init).history, Run(env, rs + more).history);
    }
  }

  lemma GrowsOn(a: History, b: History, c: History)
    requires Grows(a, b) && Grows(b, c)
    ensures Grows(a, c)
  {
  }

  // ---- Provenance -------------------------------------------------------------------------------

  const PROVENANCE_BOUND: int := 3721 * SECOND

  /** The whole story of a credential request made on an authorization-code token. */
  ghost predicate Story(env: Env, h: History, b: Batch, r: Redemption, a: Approval, p: ParRecord) {
    && b.token in h.redemptions && h.redemptions[b.token] == r
    && r.code in h.approvals && h.approvals[r.code] == a
    && a.uri in h.pars && h.pars[a.uri] == p
    && r.client == p.client && r.redirectUri == p.redirectUri && VerifyPkce(env.issuer.lib, r.verifier, p.challenge)
    && b.jkt == Some(r.jkt) && (p.jkt.Some? ==> p.jkt == b.jkt)
    && b.configId in p.ids && b.configId in env.issuer.metadata.supported
    && p.at <= a.at <= r.at <= b.access.at <= b.authorizedAt < p.at + PROVENANCE_BOUND
    && (forall i :: 0 <= i < |b.made| ==> b.authorizedAt <= b.made[i].at <= b.issuedAt)
  }

  /** The headers say who it was: a trusted attester named the client, with a proof by the attested key,
      when it pushed the request and when it redeemed the code, and one DPoP key made the proofs of the
      redemption and of the credential request, the latter for this token. */
  ghost predicate Authentic(env: Env, b: Batch, r: Redemption, p: ParRecord) {
    PushProven(env, p) && RedemptionProven(env, r) && b.jkt == Some(r.jkt) && Accessed(env, b.token, b.jkt, b.access)
  }

  /** In every run, credentials issued on an authorization-code token trace to one pushed request by
      the client that redeemed the code, approved and redeemed with the same redirect URI, the right
      verifier and one DPoP key, for a configuration it asked for, authorized less than 3721 s after it;
      and the headers of the three requests prove that client and that key. */
  lemma Provenance(env: Env, rs: seq<Request>, k: nat) returns (r: Redemption, a: Approval, p: ParRecord)
    requires k < |Run(env, rs).history.batches|
    requires Run(env, rs).history.batches[k].token in Run(env, rs).history.redemptions
    ensures Story(env, Run(env, rs).history, Run(env, rs).history.batches[k], r, a, p)
    ensures Authentic(env, Run(env, rs).history.batches[k], r, p)
  {
    hide Run, Offered, Nonces, Timely, Slots, OneTokenEach, CodesUsed, VerifyPkce, ThreadOk, FailureOk, RevocableAll,
         ReplayedOk, TokenOk, ApprovalsOk,
         SessionsOk, PushProven, RedemptionProven, Accessed, Proves, Genuine;
    RunKeepsAll(env, rs);
    var s := Run(env, rs);
    var b := s.history.batches[k];
    assert BatchOk(env, b, s.history, s.clock);
    r := s.history.redemptions[b.token];
    assert RedemptionOk(env.issuer.lib, r, s.store.sessions, s.history.pars, s.history.approvals, s.clock);
    a := s.history.approvals[r.code];
    p := s.history.pars[a.uri];
    ApprovalTimes(env, s, r.code);
  }

  lemma ApprovalTimes(env: Env, s: Sys, code: string)
    requires Codes(env, s) && code in s.history.approvals && s.history.approvals[code].uri in s.history.pars
    ensures var a := s.history.approvals[code];
            var p := s.history.pars[a.uri];
            && p.at <= a.at < p.at + PAR_BOUND
            && forall id :: id in p.ids ==> id in env.issuer.metadata.supported
  {
  }

  /** Every credential request was made on a token from a redeemed code or a redeemed offer, never both. */
  lemma EveryTokenMinted(env: Env, rs: seq<Request>, k: nat)
    requires k < |Run(env, rs).history.batches|
    ensures var h := Run(env, rs).history;
            var b := h.batches[k];
            && (b.token in h.redemptions <==> b.token !in h.preMints)
            && (b.token in h.preMints ==>
                 && h.preMints[b.token].code in h.offers && b.configId in h.offers[h.preMints[b.token].code]
                 && b.jkt == h.preMints[b.token].jkt && b.authorizedAt < h.preMints[b.token].at + TOKEN_BOUND)
  {
    hide Run, Codes, Offered, Nonces, Timely, Slots, Accessed, Proves, Genuine, Bound, ThreadOk, FailureOk,
         RevocableAll, ReplayedOk, TokenOk;
    RunKeepsAll(env, rs);
    assert BatchOk(env, Run(env, rs).history.batches[k], Run(env, rs).history, Run(env, rs).clock);
  }

  // ---- Single redemption and revocation -------------------------------------------------------------

  /** As many codes as tokens, when no code has two. */
  lemma {:induction false} CodesCount<V>(minted: map<string, V>, code: V -> string, codes: set<string>)
    requires forall t :: t in minted ==> code(minted[t]) in codes
    requires forall t, u :: t in minted && u in minted && code(minted[t]) == code(minted[u]) ==> t == u
    ensures |minted| <= |codes|
    decreases |minted|
  {
    if minted != map[] {
      var t :| t in minted;
      var rest := minted - {t};
      assert minted.Keys == rest.Keys + {t};
      assert |minted| == |minted.Keys| && |rest| == |rest.Keys|;
      CodesCount(rest, code, codes - {code(minted[t])});
    }
  }

  /** In every run each code, of either kind, is redeemed for at most one token, and there are never
      more tokens than approvals and offers. */
  lemma SingleRedemption(env: Env, rs: seq<Request>)
    ensures var h := Run(env, rs).history;
            && OneTokenEach(h.redemptions)
            && (forall t, u :: t in h.preMints && u in h.preMints && h.preMints[t].code == h.preMints[u].code ==>
                    t == u)
            && |h.redemptions| + |h.preMints| <= |h.approvals| + |h.offers|
  {
    hide Run, SessionsOk, ApprovalsOk, CodesUsed, Answers, Tokens, Nonces, Timely, Issuing, MintingOk;
    RunKeepsAll(env, rs);
    var h := Run(env, rs).history;
    CodesCount(h.redemptions, (r: Redemption) => r.code, h.approvals.Keys);
    CodesCount(h.preMints, (m: PreMint) => m.code, h.offers.Keys);
  }

  /** Once a redeemed code has been presented again, the token it was redeemed for grants nothing at
      any time in any later state. */
  lemma ReplayIsFinal(env: Env, rs: seq<Request>, more: seq<Request>, token: string, at: int)
    requires token in Run(env, rs).history.redemptions
    requires Run(env, rs).history.redemptions[token].code in Run(env, rs).history.replayed
    ensures Run(env, rs + more).store.GrantAt(token, at) == None
  {
    hide Run, Codes, Offered, Nonces, Timely, Issuing, TokensOk, ReplayedOk;
    RunGrows(env, rs, more);
    RunKeepsAll(env, rs + more);
    var s := Run(env, rs + more);
    assert Revocable(token, s.history.redemptions[token], s.store.accessTokens, s.store.tokensByCode,
                     s.history.replayed);
  }

  /** Presenting a redeemed code again, by anyone attested, is what marks it. */
  lemma ReplayIsMarked(env: Env, rs: seq<Request>, r: Request, token: string)
    requires r.CodeRequest? && r.token.grantType == AUTHORIZATION_CODE
    requires var ctx := ReadCaller(env, r.headers, Run(env, rs).store, Run(env, rs).clock).0;
             && ctx.Some? && ctx.value.client.Some? && (r.token.clientId.None? || r.token.clientId == ctx.value.client)
    requires token in Run(env, rs).history.redemptions
    requires r.token.code == Some(Run(env, rs).history.redemptions[token].code)
    requires Unused(Run(env, rs).used, r.uuids, Needed(Run(env, rs).store, r.token))
    ensures r.token.code.value in Run(env, rs + [r]).history.replayed
  {
    hide Inv, Run, ReadCaller, Needed, Unused, Arrive, TokenStep, TokenOpStep, Codes, Store.SessionByCode, ClientProven,
         KeyProven;
    RunKeepsAll(env, rs);
    RunNext(env, rs, r);
    var s := Run(env, rs);
    CallerReadIsProven(env, r.headers, s.store, s.clock);
    var (ctx, heard) := ReadCaller(env, r.headers, s.store, s.clock);
    var h := s.(store := heard);
    HeardKeepsAll(env, s, h);
    HasCodes(env, h);
    NeededHeard(s.store, heard, r.token);
    RedeemedIsConsumed(env, h, token);
    ConsumedIsMarked(env, h, Token(r.headers, r.token, ctx.value, r.uuids));
    CodeArrives(env, s, r);
  }

  lemma RunNext(env: Env, rs: seq<Request>, r: Request)
    ensures Run(env, rs + [r]) == Arrive(env, Run(env, rs), r)
  {
    hide Arrive;
    assert (rs + [r])[..|rs|] == rs;
  }

  lemma HasCodes(env: Env, s: Sys)
    requires Inv(env, s)
    ensures Codes(env, s)
  {
    hide Codes, Offered, Tokens, Nonces, Timely, Issuing, Slots, Witnessed;
  }

  lemma NeededHeard(store: Store, heard: Store, request: TokenRequest)
    requires heard == store.(seenJtis := heard.seenJtis)
    ensures Needed(heard, request) == Needed(store, request)
  {
  }

  lemma RedeemedIsConsumed(env: Env, s: Sys, token: string)
    requires Codes(env, s) && token in s.history.redemptions
    ensures var session := s.store.SessionByCode(s.history.redemptions[token].code);
            session.Some? && session.value.consumed
  {
  }

  lemma ConsumedIsMarked(env: Env, s: Sys, op: Op)
    requires op.Token? && op.tokenRequest.grantType == AUTHORIZATION_CODE && op.ctx.client.Some?
    requires op.tokenRequest.code.Some?
    requires op.tokenRequest.clientId.None? || op.tokenRequest.clientId == op.ctx.client
    requires s.store.SessionByCode(op.tokenRequest.code.value).Some?
    requires s.store.SessionByCode(op.tokenRequest.code.value).value.consumed
    requires Unused(s.used, op.uuids, Needed(s.store, op.tokenRequest))
    ensures op.tokenRequest.code.value in TokenOpStep(env, s, op).history.replayed
  {
    hide Unused, Needed, Taken, RedemptionOf, Store.SessionByCode, MintedGrant, MintedResponse, VerifyPkce,
         RedeemPreAuthorized;
    GrantTypesDiffer();
  }

  // ---- Nonces -----------------------------------------------------------------------------------------

  function Issued(batches: seq<Batch>): nat {
    if batches == [] then 0 else Issued(batches[..|batches| - 1]) + |batches[|batches| - 1].made|
  }

  function NoncesOf(batches: seq<Batch>): set<string> {
    if batches == [] then {} else NoncesOf(batches[..|batches| - 1]) + batches[|batches| - 1].nonces
  }

  lemma {:induction false} NonceAmong(batches: seq<Batch>, n: string)
    ensures n in NoncesOf(batches) <==> exists k :: 0 <= k < |batches| && n in batches[k].nonces
  {
    if batches != [] {
      var init := batches[..|batches| - 1];
      NonceAmong(init, n);
      assert forall k :: 0 <= k < |init| ==> init[k] == batches[k];
    }
  }

  lemma {:induction false} IssuedPerNonce(batches: seq<Batch>, size: nat)
    requires BatchesApart(batches)
    requires forall k :: 0 <= k < |batches| ==> |batches[k].made| <= size && batches[k].nonces != {}
    ensures Issued(batches) <= size * |NoncesOf(batches)|
  {
    if batches != [] {
      var init, last := batches[..|batches| - 1], batches[|batches| - 1];
      IssuedPerNonce(init, size);
      forall n | n in last.nonces ensures n !in NoncesOf(init) {
        NonceAmong(init, n);
        assert forall k :: 0 <= k < |init| ==> init[k].nonces !! last.nonces;
      }
      assert |NoncesOf(batches)| == |NoncesOf(init)| + |last.nonces|;
      OneMoreNonce(size, |NoncesOf(init)|, |last.nonces|);
    }
  }

  lemma OneMoreNonce(size: nat, a: nat, b: nat)
    requires b > 0
    ensures size * a + size <= size * (a + b)
  {
  }

  /** In every run, however requests interleave: a nonce supports at most one successful request, the
      credentials issued never exceed a batch for each nonce handed out, and a request that fails with
      an invalid proof has consumed none. */
  lemma NoncesConserved(env: Env, rs: seq<Request>)
    ensures var h := Run(env, rs).history;
            && BatchesApart(h.batches)
            && (forall k :: 0 <= k < |h.batches| ==> h.batches[k].nonces != {} && h.batches[k].nonces <= h.handed.Keys)
            && Issued(h.batches) <= BatchSize(env.issuer.metadata) * |h.handed.Keys|
            && (forall k :: 0 <= k < |h.failures| && h.failures[k].error == InvalidProof ==>
                    h.failures[k].consumed == {})
  {
    hide Run, Inv;
    RunKeepsAll(env, rs);
    NoncesCounted(env, Run(env, rs));
  }

  lemma NoncesCounted(env: Env, s: Sys)
    requires Inv(env, s)
    ensures var h := s.history;
            && BatchesApart(h.batches)
            && (forall k :: 0 <= k < |h.batches| ==> h.batches[k].nonces != {} && h.batches[k].nonces <= h.handed.Keys)
            && Issued(h.batches) <= BatchSize(env.issuer.metadata) * |h.handed.Keys|
            && (forall k :: 0 <= k < |h.failures| && h.failures[k].error == InvalidProof ==>
                    h.failures[k].consumed == {})
  {
    hide Codes, Offered, Tokens, Timely, Slots, Witnessed, ThreadsApart, ThreadsBatchesApart, Entitled, Accessed, Bound,
         ThreadOk, Proves, Genuine;
    forall k | 0 <= k < |s.history.batches|
      ensures |s.history.batches[k].made| <= BatchSize(env.issuer.metadata) && s.history.batches[k].nonces != {}
      ensures s.history.batches[k].nonces <= s.history.handed.Keys
    {
      assert BatchOk(env, s.history.batches[k], s.history, s.clock);
      assert Spent(s.store.nonces, s.history.handed.Keys, s.history.batches[k].nonces);
    }
    IssuedPerNonce(s.history.batches, BatchSize(env.issuer.metadata));
    forall n | n in NoncesOf(s.history.batches) ensures n in s.history.handed.Keys {
      NonceAmong(s.history.batches, n);
    }
    SubsetCount(NoncesOf(s.history.batches), s.history.handed.Keys, BatchSize(env.issuer.metadata));
    forall k | 0 <= k < |s.history.failures| ensures FailureOk(s.history.failures[k]) {
    }
  }

  /** Each nonce a successful request consumed had been handed out, and was consumed less than 301 s after. */
  lemma NoncesInTime(env: Env, rs: seq<Request>, k: nat, n: string)
    requires k < |Run(env, rs).history.batches| && n in Run(env, rs).history.batches[k].nonces
    ensures InLifetime(n, Run(env, rs).history.handed, Run(env, rs).history.spent)
  {
    hide Run, Codes, Offered, Tokens, Nonces, Issuing, InLifetime, Stored;
    RunKeepsAll(env, rs);
  }

  lemma SubsetCount(a: set<string>, b: set<string>, size: nat)
    requires a <= b
    ensures size * |a| <= size * |b|
  {
    assert b == a + (b - a);
    assert |b| == |a| + |b - a|;
    assert size * |b| == size * |a| + size * |b - a|;
  }

  // ---- What was issued --------------------------------------------------------------------------------

  /** A request that succeeded got one credential for each proof it carried, of the configuration it named.
      Credential `i` was made for the key in the header of proof `i`, whose holder made that proof for this
      issuer, at the time, with a nonce the request consumed, and it is what signing for that key gives. */
  lemma BoundToProofs(env: Env, rs: seq<Request>, k: nat, i: nat)
    requires k < |Run(env, rs).history.batches| && i < |Run(env, rs).history.batches[k].made|
    ensures var b := Run(env, rs).history.batches[k];
            && |b.made| == |ProofsOf(b.request)|
            && HeaderKey(env.issuer, ProofsOf(b.request)[i]) == Some(b.made[i].holder)
            && Proves(env.issuer, ProofsOf(b.request)[i], b.made[i].holder, b.nonces, b.authorizedAt)
            && Named(b.request, b.token, b.configId, Run(env, rs).history)
            && b.configId in env.issuer.metadata.supported
            && Genuine(env.issuer, env.issuer.metadata.supported[b.configId], b.made[i])
            && b.authorizedAt <= b.made[i].at <= b.issuedAt <= Run(env, rs).clock
  {
    hide Run, Codes, Offered, Tokens, Nonces, Timely, Slots, Witnessed, Proves, Genuine, Entitled, Accessed, Bound,
         Named, HeaderKey, ThreadOk, FailureOk;
    RunKeepsAll(env, rs);
    var b := Run(env, rs).history.batches[k];
    assert BatchOk(env, b, Run(env, rs).history, Run(env, rs).clock);
    KeyIsInHeader(env.issuer, ProofsOf(b.request)[i], b.made[i].holder, b.nonces, b.authorizedAt);
  }

  /** So verifying an issued SD-JWT VC, anywhere in its year, gives the key of proof `i` as its holder's
      and the status index drawn for it. */
  lemma IssuedVcVerifies(env: Env, rs: seq<Request>, k: nat, i: nat, now: int)
    requires k < |Run(env, rs).history.batches| && i < |Run(env, rs).history.batches[k].made|
    requires Run(env, rs).history.batches[k].made[i].credential.SdJwtVcCredential?
    requires Jws.Ideal(env.issuer.lib) && Jws.AlgorithmForJwk(env.issuer.key).Some?
    requires 0 <= Seconds(Run(env, rs).history.batches[k].made[i].at) <= SdJwtTheorems.MAX_TIME
    ensures Run(env, rs).history.batches[k].configId in env.issuer.metadata.supported
    ensures var m := Run(env, rs).history.batches[k].made[i];
            var config := env.issuer.metadata.supported[Run(env, rs).history.batches[k].configId];
            VcSays(env.issuer, config, m, m.credential.text, now)
  {
    hide Run, Proves, Genuine, VcSays, Jws.Ideal, Named, HeaderKey;
    BoundToProofs(env, rs, k, i);
    var b := Run(env, rs).history.batches[k];
    FormatOfCredential(env.issuer, env.issuer.metadata.supported[b.configId], b.made[i]);
    VcVerifies(env.issuer, env.issuer.metadata.supported[b.configId], b.made[i], now);
  }

  lemma FormatOfCredential(issuer: Issuer, config: Configuration, m: Made)
    requires Genuine(issuer, config, m)
    ensures m.credential.SdJwtVcCredential? <==> config.format == SD_JWT_FORMAT
  {
    hide Refusal, LotFits, VcRequest, VcText, LicenceRequest, Mdoc.Issuable, Mdoc.Issued;
  }

  /** And any presentation of an issued mdoc that verifies, which it does exactly for a trusted signer,
      in its period, by the holder of that key and for the transcript it was made for, gives the key of
      proof `i` as its device key and the status index drawn for it. */
  lemma IssuedMdocVerifies(env: Env, rs: seq<Request>, k: nat, i: nat, disclose: MdocPresentation.Disclosed,
                           presented: Cose.Value, expected: Cose.Value,
                           device: Cose.PublicKey, anchors: seq<Cose.ByteString>, now: int)
    requires k < |Run(env, rs).history.batches| && i < |Run(env, rs).history.batches[k].made|
    requires Run(env, rs).history.batches[k].made[i].credential.MdocCredential?
    requires Mdoc.DatesReadBack(env.issuer.mdocLib) && 0 <= Run(env, rs).history.batches[k].made[i].at < LAST_ISSUANCE
    ensures var m := Run(env, rs).history.batches[k].made[i];
            MdocSays(env.issuer, m, m.credential.issuerSigned, disclose, presented, expected, device, anchors, now)
  {
    hide Run, Proves, Genuine, MdocSays, Mdoc.DatesReadBack, Named, HeaderKey;
    BoundToProofs(env, rs, k, i);
    var b := Run(env, rs).history.batches[k];
    FormatOfCredential(env.issuer, env.issuer.metadata.supported[b.configId], b.made[i]);
    MdocVerifies(env.issuer, env.issuer.metadata.supported[b.configId], b.made[i], disclose, presented, expected,
                 device, anchors, now);
  }

  /** In every run, however requests interleave, no two issued credentials of one format share a status
      index, in one request or in two. */
  lemma IndicesDistinct(env: Env, rs: seq<Request>, j: nat, i: nat, k: nat, l: nat)
    requires var batches := Run(env, rs).history.batches;
             && j < |batches| && i < |batches[j].made| && k < |batches| && l < |batches[k].made| && (j, i) != (k, l)
             && batches[j].made[i].credential.SdJwtVcCredential? == batches[k].made[l].credential.SdJwtVcCredential?
    ensures Run(env, rs).history.batches[j].made[i].index != Run(env, rs).history.batches[k].made[l].index
  {
    hide Run, Codes, Offered, Tokens, Nonces, Timely, Slots, Issuing, Witnessed, Proves, Genuine, Named, HeaderKey;
    RunKeepsAll(env, rs);
    BoundToProofs(env, rs, j, i);
    BoundToProofs(env, rs, k, l);
    var b, c := Run(env, rs).history.batches[j], Run(env, rs).history.batches[k];
    FormatOfCredential(env.issuer, env.issuer.metadata.supported[b.configId], b.made[i]);
    FormatOfCredential(env.issuer, env.issuer.metadata.supported[c.configId], c.made[l]);
    IndicesDiffer(env, Run(env, rs), j, i, k, l);
  }

  /** The index of an issued credential is one the manager handed out from the list of its format. */
  lemma IndexTaken(env: Env, rs: seq<Request>, k: nat, i: nat)
    requires k < |Run(env, rs).history.batches| && i < |Run(env, rs).history.batches[k].made|
    ensures var m := Run(env, rs).history.batches[k].made[i];
            var status := Run(env, rs).status;
            m.index in if m.credential.SdJwtVcCredential? then status.revocation.taken else status.mdoc.taken
  {
    hide Run, Codes, Offered, Tokens, Nonces, Timely, Issuing, Witnessed, Proves, Genuine, Named, HeaderKey;
    RunKeepsAll(env, rs);
    BoundToProofs(env, rs, k, i);
    var b := Run(env, rs).history.batches[k];
    var config := env.issuer.metadata.supported[b.configId];
    FormatOfCredential(env.issuer, config, b.made[i]);
    assert SlotIs(Run(env, rs).history.drawn, Slot(ListOf(config), b.made[i].index), Owner(b.nonces, i));
  }

  /** What the list for this format says of an index. */
  function StatusAt(m: Status.ManagerModel, vc: bool, index: nat): bv8
    requires Status.Sized(m) && index < Status.LIST_CAPACITY
  {
    if vc then m.revocation.statuses[index] else m.mdoc.statuses[index]
  }

  function RevocationOf(vc: bool, index: nat): Status.Op {
    if vc then Status.Update(Status.Revocation, index, true) else Status.RevokeMdoc(index)
  }

  /** Revoking an index revokes the credential it was drawn for and, of all that were ever issued, no other. */
  lemma RevokesIndex(env: Env, rs: seq<Request>, j: nat, i: nat, k: nat, l: nat)
    requires var batches := Run(env, rs).history.batches;
             j < |batches| && i < |batches[j].made| && k < |batches| && l < |batches[k].made|
    ensures var batches := Run(env, rs).history.batches;
            var revoked, other := batches[j].made[i], batches[k].made[l];
            var vc, otherVc := revoked.credential.SdJwtVcCredential?, other.credential.SdJwtVcCredential?;
            var after := Run(env, rs + [Other(Manage(RevocationOf(vc, revoked.index)))]);
            && Status.Sized(Run(env, rs).status) && Status.Sized(after.status)
            && revoked.index < Status.LIST_CAPACITY && other.index < Status.LIST_CAPACITY
            && StatusAt(after.status, vc, revoked.index) == 1
            && ((j, i) != (k, l) ==>
                  StatusAt(after.status, otherVc, other.index) == StatusAt(Run(env, rs).status, otherVc, other.index))
  {
    hide Inv, Run, Proves, LotFits, Signed, AfterCall, Arrive, Status.Sized, Named, HeaderKey;
    RunKeepsAll(env, rs);
    var s := Run(env, rs);
    HasSize(env, s);
    BoundToProofs(env, rs, j, i);
    BoundToProofs(env, rs, k, l);
    var revoked, other := s.history.batches[j].made[i], s.history.batches[k].made[l];
    var vc, otherVc := revoked.credential.SdJwtVcCredential?, other.credential.SdJwtVcCredential?;
    RunNext(env, rs, Other(Manage(RevocationOf(vc, revoked.index))));
    RevocationIsOffered(vc, revoked.index);
    ManageArrives(env, s, RevocationOf(vc, revoked.index));
    RevocationWrites(s.status, vc, revoked.index, otherVc, other.index);
    if (j, i) != (k, l) && vc == otherVc {
      IndicesDistinct(env, rs, j, i, k, l);
    }
  }

  /** Verifying the text at some time gives this status index. */
  ghost predicate VcReads(issuer: Issuer, text: string, now: int, index: nat) {
    var r := SdJwt.Verified(issuer.lib, text, issuer.key, now);
    r.Ok? && StatusEntryOf(r.value.payload) == Some((index, issuer.statusUri))
  }

  /** So does verifying some presentation of the mdoc. */
  ghost predicate MdocReads(issuer: Issuer, issuerSigned: Cose.ByteString, disclose: MdocPresentation.Disclosed,
                            transcript: Cose.Value, device: Cose.PublicKey, anchors: seq<Cose.ByteString>, now: int,
                            index: nat) {
    var response := Mdoc.Present(issuer.mdocLib, issuerSigned, disclose, transcript, device);
    && response.Ok?
    && var r := Mdoc.VerifyDeviceResponse(issuer.mdocLib, response.value, transcript, anchors, now);
       r.Ok? && |r.value| > 0 && r.value[0].status == Some(Mdoc.StatusRef(index, issuer.mdocStatusUri))
  }

  /** A verifier of the credential reads this status index in it. */
  ghost predicate Reads(issuer: Issuer, c: Credential, index: nat) {
    match c
    case SdJwtVcCredential(text) => exists now :: VcReads(issuer, text, now, index)
    case MdocCredential(issuerSigned) =>
      exists disclose, transcript, device, anchors, now ::
        MdocReads(issuer, issuerSigned, disclose, transcript, device, anchors, now, index)
  }

  /** The libraries do what they are for, and the credential was made at a time they can write. */
  ghost predicate Legible(env: Env, m: Made) {
    && Jws.Ideal(env.issuer.lib) && Jws.AlgorithmForJwk(env.issuer.key).Some?
    && Mdoc.DatesReadBack(env.issuer.mdocLib) && 0 <= m.at < LAST_ISSUANCE
  }

  /** Credential `i` of request `k` was issued in this state, and a verifier reads this index in it. */
  ghost predicate ReadsAt(env: Env, s: Sys, k: nat, i: nat, index: nat) {
    && k < |s.history.batches| && i < |s.history.batches[k].made|
    && Legible(env, s.history.batches[k].made[i])
    && Reads(env.issuer, s.history.batches[k].made[i].credential, index)
  }

  predicate IsVc(s: Sys, k: nat, i: nat)
    requires k < |s.history.batches| && i < |s.history.batches[k].made|
  {
    s.history.batches[k].made[i].credential.SdJwtVcCredential?
  }

  /** What a verifier reads is the index drawn for the credential. */
  lemma ReadsIsIndex(env: Env, rs: seq<Request>, k: nat, i: nat, index: nat)
    requires ReadsAt(env, Run(env, rs), k, i, index)
    ensures index == Run(env, rs).history.batches[k].made[i].index
  {
    hide Run, Jws.Ideal, SdJwt.Verified, StatusEntryOf, Mdoc.Present, Mdoc.VerifyDeviceResponse, ShowsLicence,
         LicencePeriod, SaltedElements, SignedBy, LicenceRequest, MdocPresentation.TrustedNow, Mdoc.DatesReadBack;
    var m := Run(env, rs).history.batches[k].made[i];
    match m.credential
    case SdJwtVcCredential(text) =>
      var now :| VcReads(env.issuer, text, now, index);
      IssuedVcVerifies(env, rs, k, i, now);
    case MdocCredential(issuerSigned) =>
      var disclose, transcript, device, anchors, now :|
        MdocReads(env.issuer, issuerSigned, disclose, transcript, device, anchors, now, index);
      IssuedMdocVerifies(env, rs, k, i, disclose, transcript, transcript, device, anchors, now);
  }

  /** An index is set in the list of its format, and another one, in it or in the other list, is not touched. */
  ghost predicate SetsOnly(before: Status.ManagerModel, after: Status.ManagerModel, vc: bool, index: nat,
                           otherVc: bool, other: nat) {
    && Status.Sized(before) && Status.Sized(after) && index < Status.LIST_CAPACITY && other < Status.LIST_CAPACITY
    && StatusAt(after, vc, index) == 1 && StatusAt(after, otherVc, other) == StatusAt(before, otherVc, other)
  }

  /** Revoking the status index a verifier reads in a credential sets what its list says at that index,
      and of every other credential ever issued what its list says at the index a verifier reads in that
      one stays as it was. */
  lemma RevokesOne(env: Env, rs: seq<Request>, j: nat, i: nat, k: nat, l: nat, index: nat, other: nat)
    requires ReadsAt(env, Run(env, rs), j, i, index) && ReadsAt(env, Run(env, rs), k, l, other) && (j, i) != (k, l)
    ensures var s := Run(env, rs);
            var after := Run(env, rs + [Other(Manage(RevocationOf(IsVc(s, j, i), index)))]);
            SetsOnly(s.status, after.status, IsVc(s, j, i), index, IsVc(s, k, l), other)
  {
    hide Run, Reads, Legible, StatusAt;
    ReadsIsIndex(env, rs, j, i, index);
    ReadsIsIndex(env, rs, k, l, other);
    RevokesIndex(env, rs, j, i, k, l);
  }

  lemma ManageArrives(env: Env, s: Sys, call: Status.Op)
    requires Status.Sized(s.status) && StatusRuns.Offered(call)
    ensures Arrive(env, s, Other(Manage(call))).status == AfterCall(s.status, call)
  {
    hide ArrivePush, ArriveCode, ArriveOffer, AfterCall, PushStep, DecisionStep, TokenOpStep, OfferStep, RedeemPreStep,
         MintPreStep, NonceStep,
         AuthorizeStep, BeginStep, ConsumeStep, IssueNextStep, FinishStep;
  }

  lemma RevocationIsOffered(vc: bool, index: nat)
    ensures StatusRuns.Offered(RevocationOf(vc, index))
  {
  }

  lemma HasSize(env: Env, s: Sys)
    requires Inv(env, s)
    ensures Status.Sized(s.status)
  {
    hide Codes, Offered, Tokens, Nonces, Timely, Issuing, Witnessed;
  }

  lemma RevocationWrites(m: Status.ManagerModel, vc: bool, index: nat, otherVc: bool, other: nat)
    requires Status.Sized(m) && index < Status.LIST_CAPACITY && other < Status.LIST_CAPACITY
    ensures var after := AfterCall(m, RevocationOf(vc, index));
            && StatusRuns.Offered(RevocationOf(vc, index)) && Status.Sized(after) && StatusAt(after, vc, index) == 1
            && (index != other || vc != otherVc ==> StatusAt(after, otherVc, other) == StatusAt(m, otherVc, other))
  {
  }

  // ---- Tokens and the credential endpoint ---------------------------------------------------------------

  /** The response a token was handed out with, and when. */
  ghost predicate HandedOut(h: History, token: string, response: TokenResponse, at: int) {
    || (token in h.redemptions && h.redemptions[token].response == response && h.redemptions[token].at == at)
    || (token in h.preMints && h.preMints[token].response == response && h.preMints[token].at == at)
  }

  /** For every live token of every run, the credential endpoint accepts exactly what its token
      response listed, everything it was granted is supported, and the response carries that token. */
  lemma EndpointsAgree(env: Env, rs: seq<Request>, token: string)
    requires token in Run(env, rs).store.accessTokens
    ensures var s := Run(env, rs);
            var entry := s.store.accessTokens[token];
            && (token in s.history.redemptions <==> token !in s.history.preMints)
            && (token in s.history.redemptions ==>
                  && Agree(env.issuer.metadata, entry.grant, s.history.redemptions[token].response)
                  && Announced(token, entry, s.history.redemptions[token].response, s.history.redemptions[token].at))
            && (token in s.history.preMints ==>
                  && Agree(env.issuer.metadata, entry.grant, s.history.preMints[token].response)
                  && Announced(token, entry, s.history.preMints[token].response, s.history.preMints[token].at))
  {
    hide Run, Codes, Offered, Nonces, Timely, Issuing, Agree, Announced, RevocableAll, ReplayedOk;
    RunKeepsAll(env, rs);
    assert TokenOk(env.issuer.metadata, token, Run(env, rs).store.accessTokens[token], Run(env, rs).history);
  }

  /** A live token is let in under the scheme its token response announced and under no other, until the
      seconds the response gave it have passed, and, when that scheme is DPoP, with a fresh proof by the
      key it was minted for. */
  lemma AnnouncedUse(env: Env, rs: seq<Request>, token: string, response: TokenResponse, minted: int,
                     authorization: string, dpop: seq<Option<string>>, htu: string, now: int)
    requires token in Run(env, rs).store.accessTokens && HandedOut(Run(env, rs).history, token, response, minted)
    requires ResourceAccess.WellFormed(authorization) && ResourceAccess.Credentials(authorization).1 == token
    ensures var store := Run(env, rs).store;
            var context := Proofs.DpopContext("POST", htu, Some(token));
            var proof := ReadDpop(env.ProofVerifier(), dpop, context, store, now).0;
            && response.accessToken == token
            && (ResourceAccess.Authorize(env.ProofVerifier(), authorization, dpop, htu, store, now).0.Ok? <==>
                  && ResourceAccess.SameIgnoringCase(ResourceAccess.Credentials(authorization).0, response.tokenType)
                  && now < minted + response.expiresIn * 1000
                  && (response.tokenType == "DPoP" ==> proof == Ok(store.accessTokens[token].grant.dpopJkt)))
  {
    hide Run, ReadDpop, Agree, ResourceAccess.Authorize, ResourceAccess.Credentials, ResourceAccess.SameIgnoringCase;
    EndpointsAgree(env, rs, token);
    ResourceAccess.AccessIff(env.ProofVerifier(), authorization, dpop, htu, Run(env, rs).store, now);
    ResourceAccess.SchemeLetters(ResourceAccess.Credentials(authorization).0);
  }
}
