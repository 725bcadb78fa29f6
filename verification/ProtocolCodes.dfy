/** Invariants of the protocol: sessions, authorization codes and the tokens they become. */
module ProtocolCodes {
  import opened Wrappers
  import opened IssuerStore
  import opened Authorization
  import opened TokenEndpoint
  import opened CredentialEndpoint
  import opened Protocol
  import Jws

  const PAR_BOUND: int := 60 * SECOND
  const CODE_BOUND: int := 61 * SECOND
  const TOKEN_BOUND: int := 3600 * SECOND

  // ---- Sessions, approvals and redemptions -----------------------------------------------------

  /** A stored session is the pushed request it came from. */
  predicate Matches(uri: string, s: Session, p: ParRecord) {
    && s.requestUri == uri && s.clientId == p.client && s.codeChallenge == p.challenge && s.redirectUri == p.redirectUri
    && s.configIds == p.ids && s.viaDetails == p.via && s.dpopJkt == p.jkt && s.createdAt == p.at
  }

  ghost predicate SessionOk(uri: string, s: Session, p: ParRecord, codeToUri: map<string, string>, metadata: Metadata,
                            clock: int) {
    && Matches(uri, s, p) && p.at <= clock && p.ids != [] && Supported(p.ids, metadata)
    && (s.authorizationCode.Some? <==> s.codeIssuedAt.Some?)
    && (s.authorizationCode.Some? ==> s.authorizationCode.value in codeToUri
                                      && codeToUri[s.authorizationCode.value] == uri)
    && (s.consumed ==> s.authorizationCode.Some?)
  }

  ghost predicate ApprovalOk(code: string, a: Approval, sessions: map<string, Session>, pars: map<string, ParRecord>,
                             clock: int) {
    && a.uri in sessions && a.uri in pars
    && sessions[a.uri].authorizationCode == Some(code) && sessions[a.uri].codeIssuedAt == Some(a.at)
    && pars[a.uri].at <= a.at <= clock && a.at < pars[a.uri].at + PAR_BOUND
  }

  /** A redemption answers an approved pushed request: same client, redirect, challenge and key. */
  ghost predicate RedemptionOk(lib: Jws.Library, r: Redemption, sessions: map<string, Session>,
                               pars: map<string, ParRecord>,
                               approvals: map<string, Approval>, clock: int) {
    && r.code in approvals
    && var a := approvals[r.code];
    && a.uri in sessions && sessions[a.uri].consumed && a.uri in pars
    && Answers(lib, r, pars[a.uri])
    && a.at <= r.at <= clock && r.at < a.at + CODE_BOUND
  }

  predicate Answers(lib: Jws.Library, r: Redemption, p: ParRecord) {
    && r.client == p.client && r.redirectUri == p.redirectUri && VerifyPkce(lib, r.verifier, p.challenge)
    && (p.jkt.Some? ==> p.jkt == Some(r.jkt))
  }

  ghost predicate SessionsOk(sessions: map<string, Session>, codeToUri: map<string, string>,
                             pars: map<string, ParRecord>,
                             metadata: Metadata, clock: int) {
    && sessions.Keys == pars.Keys
    && forall uri :: uri in sessions ==> SessionOk(uri, sessions[uri], pars[uri], codeToUri, metadata, clock)
  }

  ghost predicate ApprovalsOk(sessions: map<string, Session>, codeToUri: map<string, string>,
                              pars: map<string, ParRecord>,
                              approvals: map<string, Approval>, clock: int) {
    && codeToUri.Keys == approvals.Keys
    && forall code :: code in approvals ==> codeToUri[code] == approvals[code].uri
                                            && ApprovalOk(code, approvals[code], sessions, pars, clock)
  }

  ghost predicate RedemptionsOk(lib: Jws.Library, sessions: map<string, Session>, pars: map<string, ParRecord>,
                                approvals: map<string, Approval>, redemptions: map<string, Redemption>, clock: int) {
    forall token :: token in redemptions ==> RedemptionOk(lib, redemptions[token], sessions, pars, approvals, clock)
  }

  ghost predicate OneTokenEach(redemptions: map<string, Redemption>) {
    forall t, u :: t in redemptions && u in redemptions && redemptions[t].code == redemptions[u].code ==> t == u
  }

  ghost predicate CodesUsed(sessions: map<string, Session>, approvals: map<string, Approval>,
                            redemptions: map<string, Redemption>, used: set<string>) {
    && approvals.Keys <= used && redemptions.Keys <= used
    && (forall u: string :: URI_PREFIX + u in sessions ==> u in used)
  }

  ghost predicate CodeInv(env: Env, sessions: map<string, Session>, codeToUri: map<string, string>,
                          pars: map<string, ParRecord>,
                          approvals: map<string, Approval>, redemptions: map<string, Redemption>, used: set<string>,
                          clock: int) {
    && SessionsOk(sessions, codeToUri, pars, env.issuer.metadata, clock)
    && ApprovalsOk(sessions, codeToUri, pars, approvals, clock)
    && RedemptionsOk(env.issuer.lib, sessions, pars, approvals, redemptions, clock)
    && OneTokenEach(redemptions)
    && CodesUsed(sessions, approvals, redemptions, used)
  }

  ghost predicate Codes(env: Env, s: Sys) {
    CodeInv(env, s.store.sessions, s.store.codeToUri, s.history.pars, s.history.approvals, s.history.redemptions,
            s.used, s.clock)
  }

  // ---- Each step keeps them ------------------------------------------------------------------------

  lemma PrefixInjective(u: string, v: string)
    ensures URI_PREFIX + u == URI_PREFIX + v <==> u == v
  {
    assert (URI_PREFIX + u)[|URI_PREFIX|..] == u && (URI_PREFIX + v)[|URI_PREFIX|..] == v;
  }

  /** A new session: the others, the approvals and the redemptions stay as they are. */
  lemma NewSessionOk(env: Env, s: Sys, uri: string, session: Session, p: ParRecord)
    requires Codes(env, s) && uri !in s.store.sessions
    requires SessionOk(uri, session, p, s.store.codeToUri, env.issuer.metadata, s.clock)
    ensures SessionsOk(s.store.sessions[uri := session], s.store.codeToUri, s.history.pars[uri := p],
                       env.issuer.metadata, s.clock)
    ensures ApprovalsOk(s.store.sessions[uri := session], s.store.codeToUri, s.history.pars[uri := p],
                        s.history.approvals, s.clock)
  {
  }

  lemma NewSessionKeepsRedemptions(env: Env, s: Sys, uri: string, session: Session, p: ParRecord)
    requires Codes(env, s) && uri !in s.store.sessions
    ensures RedemptionsOk(env.issuer.lib, s.store.sessions[uri := session], s.history.pars[uri := p],
                          s.history.approvals, s.history.redemptions, s.clock)
  {
    hide SessionsOk, ApprovalsOk, OneTokenEach, CodesUsed, Answers;
  }

  lemma NewUriUsed(env: Env, s: Sys, uuid: string, session: Session)
    requires Codes(env, s)
    ensures CodesUsed(s.store.sessions[URI_PREFIX + uuid := session], s.history.approvals, s.history.redemptions,
                      s.used + {uuid})
  {
    hide SessionsOk, ApprovalsOk, RedemptionsOk, OneTokenEach;
    forall u: string | URI_PREFIX + u in s.store.sessions[URI_PREFIX + uuid := session] ensures u in s.used + {uuid} {
      PrefixInjective(u, uuid);
    }
  }

  lemma PushKeepsCodes(env: Env, s: Sys, op: Op)
    requires Codes(env, s) && op.Push?
    ensures Codes(env, PushStep(env, s, op))
  {
    hide Resolves, Supported, SessionsOk, ApprovalsOk, RedemptionsOk, OneTokenEach;
    var jkt := CheckPar(op.request, op.client, op.proofJkt);
    if op.uuid !in s.used && jkt.Ok? && Resolves(env.issuer.metadata, op.request, Ok((op.ids, op.via))) {
      ResolvedSupported(env.issuer.metadata, op.request, op.ids, op.via);
      PushedSupported(op.ids, env.issuer.metadata);
      var uri := URI_PREFIX + op.uuid;
      assert uri !in s.store.sessions;
      var session := NewSession(op.request, uri, jkt.value, op.ids, op.via, s.clock);
      var p := ParRecord(op.client, op.request.codeChallenge, op.request.redirectUri, op.ids, op.via, jkt.value,
                         s.clock, op.headers);
      NewSessionOk(env, s, uri, session, p);
      NewSessionKeepsRedemptions(env, s, uri, session, p);
      NewUriUsed(env, s, op.uuid, session);
    }
  }

  lemma PushedSupported(ids: seq<string>, metadata: Metadata)
    requires forall i :: 0 <= i < |ids| ==> ids[i] in metadata.supported
    ensures Supported(ids, metadata)
  {
  }

  function Approved(s: Session, code: string, at: int): Session {
    s.(authorizationCode := Some(code), codeIssuedAt := Some(at))
  }

  /** A session gets its code: it is that approval's alone. */
  lemma ApprovalKeepsSessions(env: Env, s: Sys, uri: string, code: string)
    requires Codes(env, s) && uri in s.store.sessions && code !in s.history.approvals
    requires s.store.sessions[uri].authorizationCode.None? && s.clock < s.store.sessions[uri].createdAt + PAR_BOUND
    ensures var sessions := s.store.sessions[uri := Approved(s.store.sessions[uri], code, s.clock)];
            var codeToUri := s.store.codeToUri[code := uri];
            var approvals := s.history.approvals[code := Approval(uri, s.clock)];
            && SessionsOk(sessions, codeToUri, s.history.pars, env.issuer.metadata, s.clock)
            && ApprovalsOk(sessions, codeToUri, s.history.pars, approvals, s.clock)
  {
    hide SessionsOk, ApprovalsOk, RedemptionsOk, OneTokenEach, CodesUsed, Approved;
    ApprovedOthers(env, s, uri);
    ApprovalKeepsEachSession(env, s, uri, code);
    ApprovalKeepsApprovals(env, s, uri, code);
  }

  lemma ApprovalKeepsEachSession(env: Env, s: Sys, uri: string, code: string)
    requires Codes(env, s) && uri in s.store.sessions && code !in s.history.approvals
    ensures SessionsOk(s.store.sessions[uri := Approved(s.store.sessions[uri], code, s.clock)],
                       s.store.codeToUri[code := uri], s.history.pars,
                       env.issuer.metadata, s.clock)
  {
    hide ApprovalOk, RedemptionsOk, OneTokenEach, CodesUsed, Supported;
    var sessions := s.store.sessions[uri := Approved(s.store.sessions[uri], code, s.clock)];
    var codeToUri := s.store.codeToUri[code := uri];
    forall u | u in sessions ensures SessionOk(u, sessions[u], s.history.pars[u], codeToUri, env.issuer.metadata,
                                               s.clock) {
      assert SessionOk(u, s.store.sessions[u], s.history.pars[u], s.store.codeToUri, env.issuer.metadata, s.clock);
    }
  }

  lemma ApprovalKeepsApprovals(env: Env, s: Sys, uri: string, code: string)
    requires Codes(env, s) && uri in s.store.sessions && code !in s.history.approvals
    requires s.clock < s.store.sessions[uri].createdAt + PAR_BOUND
    requires forall c :: c in s.history.approvals ==> s.history.approvals[c].uri != uri
    ensures ApprovalsOk(s.store.sessions[uri := Approved(s.store.sessions[uri], code, s.clock)],
                        s.store.codeToUri[code := uri], s.history.pars,
                        s.history.approvals[code := Approval(uri, s.clock)], s.clock)
  {
    hide RedemptionsOk, OneTokenEach, CodesUsed, Supported;
    var sessions := s.store.sessions[uri := Approved(s.store.sessions[uri], code, s.clock)];
    var approvals := s.history.approvals[code := Approval(uri, s.clock)];
    assert SessionOk(uri, s.store.sessions[uri], s.history.pars[uri], s.store.codeToUri, env.issuer.metadata, s.clock);
    forall c | c in approvals ensures ApprovalOk(c, approvals[c], sessions, s.history.pars, s.clock) {
      if c != code {
        assert ApprovalOk(c, s.history.approvals[c], s.store.sessions, s.history.pars, s.clock);
      }
    }
  }

  lemma ApprovalKeepsRedemptions(env: Env, s: Sys, uri: string, code: string)
    requires Codes(env, s) && uri in s.store.sessions && code !in s.history.approvals
    requires s.store.sessions[uri].authorizationCode.None?
    ensures var sessions := s.store.sessions[uri := Approved(s.store.sessions[uri], code, s.clock)];
            var approvals := s.history.approvals[code := Approval(uri, s.clock)];
            && RedemptionsOk(env.issuer.lib, sessions, s.history.pars, approvals, s.history.redemptions, s.clock)
            && CodesUsed(sessions, approvals, s.history.redemptions, s.used + {code})
  {
    hide SessionsOk, ApprovalsOk, OneTokenEach, Answers;
    ApprovedOthers(env, s, uri);
  }

  lemma DecisionKeepsCodes(env: Env, s: Sys, op: Op)
    requires Codes(env, s) && op.Decision?
    ensures Codes(env, DecisionStep(env, s, op))
  {
    hide Answers, Supported, ApprovalsOk, RedemptionsOk, OneTokenEach;
    if op.uuid !in s.used && ResolveRequestUri(s.store, Some(op.uri), Some(op.clientId), s.clock).Ok? {
      assert SessionOk(op.uri, s.store.sessions[op.uri], s.history.pars[op.uri], s.store.codeToUri, env.issuer.metadata,
                       s.clock);
      ApprovalKeepsSessions(env, s, op.uri, op.uuid);
      ApprovalKeepsRedemptions(env, s, op.uri, op.uuid);
    }
  }

  /** A session without a code is nobody's approval. */
  lemma ApprovedOthers(env: Env, s: Sys, uri: string)
    requires Codes(env, s) && uri in s.store.sessions && s.store.sessions[uri].authorizationCode.None?
    ensures forall code :: code in s.history.approvals ==> s.history.approvals[code].uri != uri
  {
  }

  /** When a code is redeemed: whose it was, and that it had not been. */
  lemma RedeemedCode(env: Env, s: Sys, op: Op)
    requires Codes(env, s) && op.Token? && op.tokenRequest.grantType != PRE_AUTHORIZED_CODE
    requires TokenStep(env.issuer.lib, s.store, op.tokenRequest, op.ctx, op.uuids, s.clock).0.Ok?
    ensures var request, ctx := op.tokenRequest, op.ctx;
            && request.code.Some? && ctx.client.Some? && ctx.jkt.Some? && request.redirectUri.Some?
            && request.codeVerifier.Some?
            && var code := request.code.value;
            && code in s.history.approvals
            && var a := s.history.approvals[code];
            && a.uri in s.store.sessions && a.uri in s.history.pars && !s.store.sessions[a.uri].consumed
            && Matches(a.uri, s.store.sessions[a.uri], s.history.pars[a.uri])
            && Answers(env.issuer.lib, RedemptionOf(op.headers, request, ctx, s.clock,
                TokenStep(env.issuer.lib, s.store, request, ctx, op.uuids, s.clock).0.value), s.history.pars[a.uri])
            && a.at <= s.clock < a.at + CODE_BOUND
            && TokenStep(env.issuer.lib, s.store, request, ctx, op.uuids, s.clock)
               == (Ok(MintedResponse(s.store.sessions[a.uri].configIds, s.store.sessions[a.uri].viaDetails, ctx.jkt,
                                     op.uuids)),
                   s.store.ConsumeCode(code)
                    .StoreToken(op.uuids(0), MintedGrant(s.store.sessions[a.uri].configIds,
                        s.store.sessions[a.uri].viaDetails, ctx.jkt, op.uuids), ACCESS_TOKEN_TTL, s.clock)
                    .RecordToken(code, op.uuids(0)))
            && Needed(s.store, request) == 1 + |s.history.pars[a.uri].ids|
  {
    hide CodeInv, TokenStep, MintedGrant, MintedResponse, VerifyPkce, Store.ConsumeCode, Store.StoreToken,
         Store.RecordToken;
    CheckedSession(env, s, op);
    SessionIsApproved(env, s, op.tokenRequest.code.value);
  }

  /** What the token endpoint checked of the session behind a code. */
  lemma CheckedSession(env: Env, s: Sys, op: Op)
    requires op.Token? && op.tokenRequest.grantType != PRE_AUTHORIZED_CODE
    requires TokenStep(env.issuer.lib, s.store, op.tokenRequest, op.ctx, op.uuids, s.clock).0.Ok?
    ensures var request, ctx := op.tokenRequest, op.ctx;
            && request.code.Some? && ctx.client.Some? && ctx.jkt.Some? && request.redirectUri.Some?
            && request.codeVerifier.Some?
            && var session := s.store.SessionByCode(request.code.value);
            && session.Some? && !session.value.consumed && session.value.codeIssuedAt.Some?
            && NumSeconds(s.clock - session.value.codeIssuedAt.value) <= CODE_TTL
            && session.value.clientId == ctx.client.value && session.value.redirectUri == request.redirectUri.value
            && VerifyPkce(env.issuer.lib, request.codeVerifier.value, session.value.codeChallenge)
            && (session.value.dpopJkt.Some? ==> session.value.dpopJkt == ctx.jkt)
            && TokenStep(env.issuer.lib, s.store, request, ctx, op.uuids, s.clock)
               == (Ok(MintedResponse(session.value.configIds, session.value.viaDetails, ctx.jkt, op.uuids)),
                   s.store.ConsumeCode(request.code.value)
                    .StoreToken(op.uuids(0), MintedGrant(session.value.configIds, session.value.viaDetails, ctx.jkt,
                                                         op.uuids), ACCESS_TOKEN_TTL, s.clock)
                    .RecordToken(request.code.value, op.uuids(0)))
  {
    hide MintedGrant, MintedResponse, VerifyPkce, NumSeconds, Store.ConsumeCode, Store.StoreToken, Store.RecordToken,
         Store.SessionByCode;
  }

  /** A code that leads to a session was approved for it. */
  lemma SessionIsApproved(env: Env, s: Sys, code: string)
    requires Codes(env, s) && s.store.SessionByCode(code).Some?
    ensures code in s.history.approvals
    ensures var a := s.history.approvals[code];
            && a.uri in s.store.sessions && a.uri in s.history.pars
            && s.store.SessionByCode(code).value == s.store.sessions[a.uri]
            && Matches(a.uri, s.store.sessions[a.uri], s.history.pars[a.uri])
            && a.at <= s.clock && s.store.sessions[a.uri].codeIssuedAt == Some(a.at)
  {
    hide RedemptionsOk, OneTokenEach, CodesUsed, Supported;
    var a := s.history.approvals[code];
    assert ApprovalOk(code, a, s.store.sessions, s.history.pars, s.clock);
    assert SessionOk(a.uri, s.store.sessions[a.uri], s.history.pars[a.uri], s.store.codeToUri, env.issuer.metadata,
                     s.clock);
  }

  lemma TokenKeepsCodes(env: Env, s: Sys, op: Op)
    requires Codes(env, s) && op.Token?
    ensures Codes(env, TokenOpStep(env, s, op))
  {
    hide TokenStep, MintedGrant, MintedResponse, Answers, Supported, Matches, RedeemPreAuthorized;
    var n := Needed(s.store, op.tokenRequest);
    if op.tokenRequest.grantType != PRE_AUTHORIZED_CODE && Unused(s.used, op.uuids, n) {
      var (r, store) := TokenStep(env.issuer.lib, s.store, op.tokenRequest, op.ctx, op.uuids, s.clock);
      if r.Ok? {
        RedeemedCode(env, s, op);
        SessionsAfterRedemption(env, s, op);
        RedemptionsAfter(env, s, op);
      } else {
        FailureKeepsSessions(env, s, op);
      }
    }
  }

  lemma FailureKeepsSessions(env: Env, s: Sys, op: Op)
    requires op.Token? && op.tokenRequest.grantType != PRE_AUTHORIZED_CODE
    requires TokenStep(env.issuer.lib, s.store, op.tokenRequest, op.ctx, op.uuids, s.clock).0.Err?
    ensures var store := TokenStep(env.issuer.lib, s.store, op.tokenRequest, op.ctx, op.uuids, s.clock).1;
            store.sessions == s.store.sessions && store.codeToUri == s.store.codeToUri
  {
  }

  lemma SessionsAfterRedemption(env: Env, s: Sys, op: Op)
    requires Codes(env, s) && op.Token? && op.tokenRequest.grantType != PRE_AUTHORIZED_CODE
    requires TokenStep(env.issuer.lib, s.store, op.tokenRequest, op.ctx, op.uuids, s.clock).0.Ok?
    ensures var store := TokenStep(env.issuer.lib, s.store, op.tokenRequest, op.ctx, op.uuids, s.clock).1;
            && SessionsOk(store.sessions, store.codeToUri, s.history.pars, env.issuer.metadata, s.clock)
            && ApprovalsOk(store.sessions, store.codeToUri, s.history.pars, s.history.approvals, s.clock)
            && store.sessions.Keys == s.store.sessions.Keys
            && (forall uri :: uri in store.sessions && s.store.sessions[uri].consumed ==> store.sessions[uri].consumed)
            && op.tokenRequest.code.Some? && op.tokenRequest.code.value in s.history.approvals
            && var uri := s.history.approvals[op.tokenRequest.code.value].uri;
               uri in store.sessions && store.sessions[uri].consumed
  {
    hide TokenStep, MintedGrant, MintedResponse, Answers, Codes, SessionsOk, ApprovalsOk, Matches, Needed;
    RedeemedCode(env, s, op);
    ConsumedSession(env, s, op.tokenRequest.code.value);
  }

  /** A session that is marked consumed. */
  lemma ConsumedSession(env: Env, s: Sys, code: string)
    requires Codes(env, s) && code in s.history.approvals
    ensures var store := s.store.ConsumeCode(code);
            var uri := s.history.approvals[code].uri;
            && SessionsOk(store.sessions, store.codeToUri, s.history.pars, env.issuer.metadata, s.clock)
            && ApprovalsOk(store.sessions, store.codeToUri, s.history.pars, s.history.approvals, s.clock)
            && store.sessions.Keys == s.store.sessions.Keys
            && (forall u :: u in store.sessions && s.store.sessions[u].consumed ==> store.sessions[u].consumed)
            && uri in store.sessions && store.sessions[uri].consumed
  {
    hide RedemptionsOk, OneTokenEach, CodesUsed, SessionsOk, ApprovalsOk;
    ApprovedSession(env, s, code);
    var uri := s.history.approvals[code].uri;
    ConsumedKeepsSessions(s.store.sessions, s.store.codeToUri, s.history.pars, env.issuer.metadata, s.clock, uri);
    ConsumedKeepsApprovals(s.store.sessions, s.store.codeToUri, s.history.pars, s.history.approvals, s.clock, uri);
  }

  lemma ApprovedSession(env: Env, s: Sys, code: string)
    requires Codes(env, s) && code in s.history.approvals
    ensures code in s.store.codeToUri && s.store.codeToUri[code] == s.history.approvals[code].uri
    ensures var uri := s.history.approvals[code].uri;
            uri in s.store.sessions && s.store.sessions[uri].authorizationCode.Some?
  {
    hide SessionsOk, RedemptionsOk, OneTokenEach, CodesUsed;
  }

  lemma ConsumedKeepsSessions(sessions: map<string, Session>, codeToUri: map<string, string>,
                              pars: map<string, ParRecord>, metadata: Metadata,
                              clock: int, uri: string)
    requires SessionsOk(sessions, codeToUri, pars, metadata, clock)
    requires uri in sessions && sessions[uri].authorizationCode.Some?
    ensures SessionsOk(sessions[uri := sessions[uri].(consumed := true)], codeToUri, pars, metadata, clock)
  {
    hide Supported;
    var after := sessions[uri := sessions[uri].(consumed := true)];
    forall u | u in after ensures SessionOk(u, after[u], pars[u], codeToUri, metadata, clock) {
      assert SessionOk(u, sessions[u], pars[u], codeToUri, metadata, clock);
    }
  }

  lemma ConsumedKeepsApprovals(sessions: map<string, Session>, codeToUri: map<string, string>,
                               pars: map<string, ParRecord>,
                               approvals: map<string, Approval>, clock: int, uri: string)
    requires ApprovalsOk(sessions, codeToUri, pars, approvals, clock) && uri in sessions
    ensures ApprovalsOk(sessions[uri := sessions[uri].(consumed := true)], codeToUri, pars, approvals, clock)
  {
    var after := sessions[uri := sessions[uri].(consumed := true)];
    forall c | c in approvals ensures ApprovalOk(c, approvals[c], after, pars, clock) {
      assert ApprovalOk(c, approvals[c], sessions, pars, clock);
    }
  }

  lemma RedemptionsAfter(env: Env, s: Sys, op: Op)
    requires Codes(env, s) && op.Token? && op.tokenRequest.grantType != PRE_AUTHORIZED_CODE
    requires TokenStep(env.issuer.lib, s.store, op.tokenRequest, op.ctx, op.uuids, s.clock).0.Ok?
    requires Unused(s.used, op.uuids, Needed(s.store, op.tokenRequest))
    ensures var after := TokenOpStep(env, s, op);
            && RedemptionsOk(env.issuer.lib, after.store.sessions, s.history.pars, s.history.approvals,
                             after.history.redemptions, s.clock)
            && OneTokenEach(after.history.redemptions)
            && CodesUsed(after.store.sessions, s.history.approvals, after.history.redemptions, after.used)
  {
    hide TokenStep, MintedGrant, MintedResponse, Answers, Supported, SessionsOk, ApprovalsOk, Distinct, Matches,
         RedemptionOf;
    RedeemedCode(env, s, op);
    SessionsAfterRedemption(env, s, op);
    FirstTaken(op.uuids, Needed(s.store, op.tokenRequest));
    RedemptionFields(op, s.clock, TokenStep(env.issuer.lib, s.store, op.tokenRequest, op.ctx, op.uuids,
                                            s.clock).0.value);
    NotRedeemed(env, s, op.tokenRequest.code.value);
  }

  lemma RedemptionFields(op: Op, at: int, response: TokenResponse)
    requires op.Token? && op.tokenRequest.code.Some?
    ensures RedemptionOf(op.headers, op.tokenRequest, op.ctx, at, response).code == op.tokenRequest.code.value
    ensures RedemptionOf(op.headers, op.tokenRequest, op.ctx, at, response).at == at
  {
  }

  lemma FirstTaken(uuid: nat -> string, n: nat)
    requires n > 0
    ensures uuid(0) in Taken(uuid, n)
  {
  }

  lemma NotRedeemed(env: Env, s: Sys, code: string)
    requires Codes(env, s) && code in s.history.approvals
    requires s.history.approvals[code].uri in s.store.sessions
    requires !s.store.sessions[s.history.approvals[code].uri].consumed
    ensures forall token :: token in s.history.redemptions ==> s.history.redemptions[token].code != code
  {
  }

  lemma TickKeepsCodes(env: Env, s: Sys, ms: nat)
    requires Codes(env, s)
    ensures Codes(env, s.(clock := s.clock + ms))
  {
  }

  lemma MoreUsed(env: Env, s: Sys, used: set<string>)
    requires Codes(env, s) && s.used <= used
    ensures CodeInv(env, s.store.sessions, s.store.codeToUri, s.history.pars, s.history.approvals,
                    s.history.redemptions, used, s.clock)
  {
  }

  lemma StepKeepsCodes(env: Env, s: Sys, op: Op)
    requires Codes(env, s)
    ensures Codes(env, Step(env, s, op))
  {
    hide CodeInv, PushStep, DecisionStep, TokenOpStep, OfferStep, RedeemPreStep, MintPreStep, NonceStep, AuthorizeStep,
         BeginStep, ConsumeStep, IssueNextStep, FinishStep, ManageStep;
    match op {
      case Tick(ms) => TickKeepsCodes(env, s, ms);
      case Push(_, _, _, _, _, _, _) => PushKeepsCodes(env, s, op);
      case Decision(_, _, _, _) => DecisionKeepsCodes(env, s, op);
      case Token(_, _, _, _) => TokenKeepsCodes(env, s, op);
      case _ =>
        OthersLeaveCodes(env, s, op);
        MoreUsed(env, s, Step(env, s, op).used);
    }
  }
}
