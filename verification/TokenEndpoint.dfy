/** The token endpoint: authorization codes and pre-authorized codes become access tokens. */
module TokenEndpoint {
  import opened Wrappers
  import opened Base64
  import opened IssuerStore
  import opened Authorization
  import Jws

  datatype TokenRequest = TokenRequest(
    grantType: string, code: Option<string>, redirectUri: Option<string>, codeVerifier: Option<string>,
    clientId: Option<string>, preAuthCode: Option<string>, txCode: Option<string>)

  /** What the request's headers established. */
  datatype TokenContext = TokenContext(client: Option<string>, jkt: Option<string>)

  datatype TokenError =
    | InvalidGrantType | InvalidCode | CodeConsumed | PkceVerificationFailed | ClientMismatch
    | InvalidPreAuthorizedCode | InvalidClient | DpopRequired | DpopKeyMismatch

  /** One configuration of a response and the identifier it can be asked for by. */
  datatype AuthorizedDetail = AuthorizedDetail(configId: string, identifier: string)

  datatype TokenResponse = TokenResponse(accessToken: string, tokenType: string, expiresIn: nat,
                                         details: Option<seq<AuthorizedDetail>>)

  const ACCESS_TOKEN_TTL: nat := 3600
  const AUTHORIZATION_CODE: string := "authorization_code"
  const PRE_AUTHORIZED_CODE: string := "urn:ietf:params:oauth:grant-type:pre-authorized_code"

  lemma GrantTypesDiffer()
    ensures AUTHORIZATION_CODE != PRE_AUTHORIZED_CODE
  {
  }

  // ---- Minting ----------------------------------------------------------------------------

  function Identifier(configId: string, uuid: string): string {
    configId + ":" + uuid
  }

  /** A detail for every configuration, under identifiers made from `uuid(1)`, `uuid(2)`, ... */
  function DetailsOf(ids: seq<string>, uuid: nat -> string): seq<AuthorizedDetail> {
    seq(|ids|, i requires 0 <= i < |ids| => AuthorizedDetail(ids[i], Identifier(ids[i], uuid(i + 1))))
  }

  /** Identifier to configuration, the last detail winning. */
  function Table(details: seq<AuthorizedDetail>): map<string, string> {
    if details == [] then map[]
    else
      var last := details[|details| - 1];
      Table(details[..|details| - 1])[last.identifier := last.configId]
  }

  function MintedDetails(ids: seq<string>, via: bool, uuid: nat -> string): Option<seq<AuthorizedDetail>> {
    if via then Some(DetailsOf(ids, uuid)) else None
  }

  function MintedGrant(ids: seq<string>, via: bool, jkt: Option<string>, uuid: nat -> string): Grant {
    Grant(ids, if via then Table(DetailsOf(ids, uuid)) else map[], jkt)
  }

  function MintedResponse(ids: seq<string>, via: bool, jkt: Option<string>, uuid: nat -> string): TokenResponse {
    TokenResponse(uuid(0), if jkt.Some? then "DPoP" else "Bearer", ACCESS_TOKEN_TTL, MintedDetails(ids, via, uuid))
  }

  /** Mint an access token scoped to `ids`. */
  method IssueAccessToken(ids: seq<string>, via: bool, jkt: Option<string>, uuid: nat -> string,
                          state: InMemoryIssuerState, now: int)
    returns (response: TokenResponse)
    modifies state`accessTokens
    ensures response == MintedResponse(ids, via, jkt, uuid)
    ensures state.Contents() == old(state.Contents()).StoreToken(uuid(0), MintedGrant(ids, via, jkt, uuid),
                                                                 ACCESS_TOKEN_TTL, now)
  {
    var identifiers: map<string, string> := map[];
    var details: Option<seq<AuthorizedDetail>> := None;
    if via {
      var listed: seq<AuthorizedDetail> := [];
      for k := 0 to |ids|
        invariant listed == DetailsOf(ids, uuid)[..k]
        invariant identifiers == Table(listed)
      {
        var identifier := Identifier(ids[k], uuid(k + 1));
        identifiers := identifiers[identifier := ids[k]];
        ghost var before := listed;
        listed := listed + [AuthorizedDetail(ids[k], identifier)];
        assert listed[..|listed| - 1] == before;
      }
      assert DetailsOf(ids, uuid)[..|ids|] == DetailsOf(ids, uuid);
      details := Some(listed);
    }
    state.StoreAccessToken(uuid(0), Grant(ids, identifiers, jkt), ACCESS_TOKEN_TTL, now);
    response := TokenResponse(uuid(0), if jkt.Some? then "DPoP" else "Bearer", ACCESS_TOKEN_TTL, details);
  }

  // ---- Authorization code grant ---------------------------------------------------------------

  /** The checks on a session that is not consumed; the DPoP key when they pass. */
  function CheckCode(lib: Jws.Library, session: Session, request: TokenRequest, client: string, jkt: Option<string>,
                     now: int): Result<string, TokenError> {
    if session.codeIssuedAt.None? then Err(InvalidCode)
    else if NumSeconds(now - session.codeIssuedAt.value) > CODE_TTL then Err(InvalidCode)
    else if session.clientId != client then Err(ClientMismatch)
    else if request.redirectUri != Some(session.redirectUri) then Err(ClientMismatch)
    else if request.codeVerifier.None? then Err(PkceVerificationFailed)
    else if !VerifyPkce(lib, request.codeVerifier.value, session.codeChallenge) then Err(PkceVerificationFailed)
    else if jkt.None? then Err(DpopRequired)
    else if session.dpopJkt.Some? && session.dpopJkt != jkt then Err(DpopKeyMismatch)
    else Ok(jkt.value)
  }

  /** Redeem a code for a token. A code that was redeemed already revokes what it minted. */
  function RedeemCode(lib: Jws.Library, store: Store, request: TokenRequest, ctx: TokenContext, uuid: nat -> string,
                      now: int)
    : (Result<TokenResponse, TokenError>, Store)
  {
    if ctx.client.None? then (Err(InvalidClient), store)
    else if request.code.None? then (Err(InvalidCode), store)
    else
      var code := request.code.value;
      match store.SessionByCode(code)
      case None => (Err(InvalidCode), store)
      case Some(session) =>
        if session.consumed then (Err(CodeConsumed), store.RevokeTokens(code))
        else match CheckCode(lib, session, request, ctx.client.value, ctx.jkt, now)
          case Err(e) => (Err(e), store)
          case Ok(jkt) =>
            (Ok(MintedResponse(session.configIds, session.viaDetails, Some(jkt), uuid)),
             store.ConsumeCode(code)
                  .StoreToken(uuid(0), MintedGrant(session.configIds, session.viaDetails, Some(jkt), uuid),
                              ACCESS_TOKEN_TTL, now)
                  .RecordToken(code, uuid(0)))
  }

  method ProcessAuthorizationCodeGrant(lib: Jws.Library, request: TokenRequest, ctx: TokenContext, uuid: nat -> string,
                                       state: InMemoryIssuerState, now: int)
    returns (r: Result<TokenResponse, TokenError>)
    modifies state
    ensures (r, state.Contents()) == RedeemCode(lib, old(state.Contents()), request, ctx, uuid, now)
  {
    hide MintedGrant, MintedDetails, NumSeconds, VerifyPkce;
    if ctx.client.None? {
      return Err(InvalidClient);
    }
    if request.code.None? {
      return Err(InvalidCode);
    }
    var code := request.code.value;
    var found := state.GetSessionByCode(code);
    if found.None? {
      return Err(InvalidCode);
    }
    var session := found.value;
    if session.consumed {
      state.RevokeTokensForCode(code);
      return Err(CodeConsumed);
    }
    var jkt := CheckCode(lib, session, request, ctx.client.value, ctx.jkt, now);
    if jkt.Err? {
      return Err(jkt.error);
    }
    state.ConsumeAuthorizationCode(code);
    var response := IssueAccessToken(session.configIds, session.viaDetails, Some(jkt.value), uuid, state, now);
    state.RecordTokenForCode(code, response.accessToken);
    r := Ok(response);
  }

  // ---- Pre-authorized code grant -----------------------------------------------------------------

  function RedeemPreAuthorized(store: Store, request: TokenRequest, ctx: TokenContext, uuid: nat -> string, now: int)
    : (Result<TokenResponse, TokenError>, Store)
  {
    if request.preAuthCode.None? then (Err(InvalidPreAuthorizedCode), store)
    else
      var code := request.preAuthCode.value;
      match store.Redeemable(code, request.txCode)
      case None => (Err(InvalidPreAuthorizedCode), store)
      case Some(ids) =>
        (Ok(MintedResponse(ids, false, ctx.jkt, uuid)),
         store.RedeemPreAuth(code, request.txCode).StoreToken(uuid(0), MintedGrant(ids, false, ctx.jkt, uuid),
                                                              ACCESS_TOKEN_TTL, now))
  }

  method ProcessPreAuthorizedCodeGrant(request: TokenRequest, ctx: TokenContext, uuid: nat -> string,
                                       state: InMemoryIssuerState, now: int)
    returns (r: Result<TokenResponse, TokenError>)
    modifies state
    ensures (r, state.Contents()) == RedeemPreAuthorized(old(state.Contents()), request, ctx, uuid, now)
  {
    hide MintedGrant, MintedResponse;
    if request.preAuthCode.None? {
      return Err(InvalidPreAuthorizedCode);
    }
    var ids := state.RedeemPreAuthorizedCode(request.preAuthCode.value, request.txCode);
    if ids.None? {
      return Err(InvalidPreAuthorizedCode);
    }
    var response := IssueAccessToken(ids.value, false, ctx.jkt, uuid, state, now);
    r := Ok(response);
  }

  // ---- The endpoint -------------------------------------------------------------------------------

  function TokenStep(lib: Jws.Library, store: Store, request: TokenRequest, ctx: TokenContext, uuid: nat -> string,
                     now: int)
    : (Result<TokenResponse, TokenError>, Store)
  {
    if request.clientId.Some? && ctx.client.Some? && request.clientId != ctx.client then (Err(InvalidClient), store)
    else if request.grantType == AUTHORIZATION_CODE then RedeemCode(lib, store, request, ctx, uuid, now)
    else if request.grantType == PRE_AUTHORIZED_CODE then RedeemPreAuthorized(store, request, ctx, uuid, now)
    else (Err(InvalidGrantType), store)
  }

  method ProcessTokenRequest(lib: Jws.Library, request: TokenRequest, ctx: TokenContext, uuid: nat -> string,
                             state: InMemoryIssuerState, now: int)
    returns (r: Result<TokenResponse, TokenError>)
    modifies state
    ensures (r, state.Contents()) == TokenStep(lib, old(state.Contents()), request, ctx, uuid, now)
  {
    hide RedeemCode, RedeemPreAuthorized;
    if request.clientId.Some? && ctx.client.Some? && request.clientId != ctx.client {
      return Err(InvalidClient);
    }
    if request.grantType == AUTHORIZATION_CODE {
      r := ProcessAuthorizationCodeGrant(lib, request, ctx, uuid, state, now);
    } else if request.grantType == PRE_AUTHORIZED_CODE {
      r := ProcessPreAuthorizedCodeGrant(request, ctx, uuid, state, now);
    } else {
      r := Err(InvalidGrantType);
    }
  }

  // ---- When a code is redeemed -----------------------------------------------------------------------

  /** The client a request names, if it names one, is the attested one. */
  predicate SameClient(request: TokenRequest, ctx: TokenContext) {
    request.clientId.None? || ctx.client.None? || request.clientId == ctx.client
  }

  /** An authorization code is redeemed iff it is known, not redeemed before and less than 61 seconds old,
      and the attested client of its pushed request presents it with that request's redirect URI, the
      text its challenge is the hash of, and a DPoP key: the one the request was bound to, if it was.
      Then the code is spent and the token lives, bound to that key, for what the request asked for. A code
      redeemed before, presented by an attested client, revokes; any other failure changes nothing. */
  lemma RedeemedIff(lib: Jws.Library, store: Store, request: TokenRequest, ctx: TokenContext, uuid: nat -> string,
                    now: int)
    requires request.grantType == "authorization_code"
    ensures var (r, after) := TokenStep(lib, store, request, ctx, uuid, now);
            var session := if request.code.Some? then store.SessionByCode(request.code.value) else None;
            && (r.Ok? <==>
                  && SameClient(request, ctx) && ctx.client.Some? && ctx.jkt.Some? && session.Some?
                  && var s := session.value;
                  && !s.consumed && s.codeIssuedAt.Some? && now < s.codeIssuedAt.value + 61_000
                  && s.clientId == ctx.client.value && request.redirectUri == Some(s.redirectUri)
                  && request.codeVerifier.Some?
                  && s.codeChallenge == Encode(UrlUnpadded, lib.sha256(request.codeVerifier.value))
                  && (s.dpopJkt.Some? ==> s.dpopJkt == ctx.jkt))
            && (r == Err(CodeConsumed) <==>
                  SameClient(request, ctx) && ctx.client.Some? && session.Some? && session.value.consumed)
            && (r.Ok? ==>
                  && after.SessionByCode(request.code.value) == Some(session.value.(consumed := true))
                  && after.GrantAt(r.value.accessToken, now).Some?
                  && var grant := after.GrantAt(r.value.accessToken, now).value;
                  && grant.configIds == session.value.configIds && grant.dpopJkt == ctx.jkt
                  && after.RevokeTokens(request.code.value).GrantAt(r.value.accessToken, now) == None)
            && (r == Err(CodeConsumed) ==> after == store.RevokeTokens(request.code.value))
            && (r.Err? && r.error != CodeConsumed ==> after == store)
  {
    hide Encode, DetailsOf, Table, MintedDetails;
    GrantTypesDiffer();
  }

  /** Each reason a redemption is refused for is true. */
  lemma RefusalsAreTrue(lib: Jws.Library, store: Store, request: TokenRequest, ctx: TokenContext, uuid: nat -> string,
                        now: int)
    requires request.grantType == "authorization_code"
    requires TokenStep(lib, store, request, ctx, uuid, now).0.Err?
    ensures var session := if request.code.Some? then store.SessionByCode(request.code.value) else None;
            match TokenStep(lib, store, request, ctx, uuid, now).0.error
            case InvalidClient => ctx.client.None? || !SameClient(request, ctx)
            case InvalidCode =>
              session.None? || session.value.codeIssuedAt.None? || now >= session.value.codeIssuedAt.value + 61_000
            case CodeConsumed => session.Some? && session.value.consumed
            case ClientMismatch =>
              && session.Some?
              && (ctx.client != Some(session.value.clientId) || request.redirectUri != Some(session.value.redirectUri))
            case PkceVerificationFailed =>
              && session.Some?
              && (request.codeVerifier.None?
                  || session.value.codeChallenge != Encode(UrlUnpadded, lib.sha256(request.codeVerifier.value)))
            case DpopRequired => ctx.jkt.None?
            case DpopKeyMismatch =>
              session.Some? && session.value.dpopJkt.Some? && ctx.jkt.Some? && session.value.dpopJkt != ctx.jkt
            case InvalidGrantType => false
            case InvalidPreAuthorizedCode => false
  {
    hide Encode, MintedGrant, MintedResponse, Store.ConsumeCode, Store.StoreToken, Store.RecordToken,
         Store.RevokeTokens;
    GrantTypesDiffer();
  }

  /** An offer is redeemed iff it is known, not redeemed before, and presented with its transaction code;
      its token lives, for what was offered, bound to the DPoP key that was sent, if one was. */
  lemma OfferRedeemedIff(lib: Jws.Library, store: Store, request: TokenRequest, ctx: TokenContext,
                         uuid: nat -> string, now: int)
    requires request.grantType == "urn:ietf:params:oauth:grant-type:pre-authorized_code"
    ensures var (r, after) := TokenStep(lib, store, request, ctx, uuid, now);
            && (r.Ok? <==>
                  && SameClient(request, ctx)
                  && request.preAuthCode.Some? && request.preAuthCode.value in store.preAuthCodes
                  && var entry := store.preAuthCodes[request.preAuthCode.value];
                  !entry.consumed && entry.txCode == request.txCode)
            && (r.Ok? ==>
                  && after.GrantAt(r.value.accessToken, now)
                     == Some(Grant(store.preAuthCodes[request.preAuthCode.value].configIds, map[], ctx.jkt))
                  && request.preAuthCode.value in after.preAuthCodes
                  && after.preAuthCodes[request.preAuthCode.value].consumed)
            && (r.Err? ==> after == store && r.error in {InvalidClient, InvalidPreAuthorizedCode})
  {
    hide DetailsOf, Table, RedeemCode;
    GrantTypesDiffer();
  }

  /** Any other kind of grant is refused. */
  lemma OtherGrantsRefused(lib: Jws.Library, store: Store, request: TokenRequest, ctx: TokenContext,
                           uuid: nat -> string, now: int)
    requires request.grantType != "authorization_code"
    requires request.grantType != "urn:ietf:params:oauth:grant-type:pre-authorized_code"
    ensures TokenStep(lib, store, request, ctx, uuid, now)
            == (Err(if SameClient(request, ctx) then InvalidGrantType else InvalidClient), store)
  {
  }

  // ---- What a response lists is what the grant knows -----------------------------------------------

  const UUID_LENGTH: nat := 36

  /** Distinct identifiers of equal length, as UUIDs are. */
  ghost predicate Distinct(uuid: nat -> string, n: nat) {
    && (forall i :: 0 <= i < n ==> |uuid(i)| == UUID_LENGTH)
    && (forall i, j :: 0 <= i < j < n ==> uuid(i) != uuid(j))
  }

  lemma IdentifiersDiffer(a: string, u: string, b: string, v: string)
    requires |u| == |v| == UUID_LENGTH && u != v
    ensures Identifier(a, u) != Identifier(b, v)
  {
    var x, y := Identifier(a, u), Identifier(b, v);
    assert x[|x| - UUID_LENGTH..] == u && y[|y| - UUID_LENGTH..] == v;
  }

  ghost predicate DistinctDetails(details: seq<AuthorizedDetail>) {
    forall i, j :: 0 <= i < j < |details| ==> details[i].identifier != details[j].identifier
  }

  lemma {:induction false} TableOfDetails(details: seq<AuthorizedDetail>, x: string)
    requires DistinctDetails(details)
    ensures x in Table(details) <==> exists i :: 0 <= i < |details| && details[i].identifier == x
    ensures forall i :: 0 <= i < |details| && details[i].identifier == x ==> Table(details)[x] == details[i].configId
  {
    if details != [] {
      var init := details[..|details| - 1];
      TableOfDetails(init, x);
      assert forall i :: 0 <= i < |init| ==> init[i] == details[i];
    }
  }

  /** With fresh UUIDs every detail of a response has an identifier of its own, repeated configurations too. */
  lemma DetailsDistinct(ids: seq<string>, uuid: nat -> string)
    requires Distinct(uuid, |ids| + 1)
    ensures DistinctDetails(DetailsOf(ids, uuid))
  {
    hide Identifier;
    forall i, j | 0 <= i < j < |ids| ensures DetailsOf(ids, uuid)[i].identifier != DetailsOf(ids, uuid)[j].identifier {
      IdentifiersDiffer(ids[i], uuid(i + 1), ids[j], uuid(j + 1));
    }
  }
}
