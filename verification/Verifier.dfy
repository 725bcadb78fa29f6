/** The verifier: its two-map session store, and the responses it accepts. Times are in the clock's unit. */
module Verifier {
  import opened Wrappers
  import opened Jws
  import opened SdJwt

  datatype ClaimQuery = ClaimQuery(path: seq<string>, values: Option<seq<Json>>)

  datatype CredentialQuery = CredentialQuery(id: string, claims: Option<seq<ClaimQuery>>)

  datatype Session = Session(id: string, nonce: string, state: string, clientId: string,
                             query: Option<seq<CredentialQuery>>, expiresAt: int)

  // ---- The store -----------------------------------------------------------------------------

  datatype Store = Store(sessions: map<string, Session>, stateToId: map<string, string>)
  {
    function Put(session: Session): Store {
      Store(sessions[session.id := session], stateToId[session.state := session.id])
    }

    function ByState(state: string): Option<Session> {
      if state in stateToId && stateToId[state] in sessions then Some(sessions[stateToId[state]]) else None
    }

    function Delete(id: string): Store {
      if id in sessions then Store(sessions - {id}, stateToId - {sessions[id].state}) else this
    }

    /** The two maps are inverse to each other. */
    ghost predicate Inverse() {
      && (forall id :: id in sessions ==> sessions[id].id == id && sessions[id].state in stateToId
                                          && stateToId[sessions[id].state] == id)
      && (forall state :: state in stateToId ==> stateToId[state] in sessions
                                                 && sessions[stateToId[state]].state == state)
    }
  }

  /** A session that is put in, under an id and a state that are new, is found by its state, and every other
      session as before. */
  lemma SessionsApart(store: Store, session: Session, state: string)
    requires store.Inverse() && session.id !in store.sessions && session.state !in store.stateToId
    ensures store.Put(session).ByState(state) == if state == session.state then Some(session) else store.ByState(state)
  {
  }

  class InMemoryVerifierState {
    var sessions: map<string, Session>
    var stateToId: map<string, string>

    function Contents(): Store
      reads this
    {
      Store(sessions, stateToId)
    }

    constructor ()
      ensures Contents() == Store(map[], map[])
    {
      sessions, stateToId := map[], map[];
    }

    method StoreSession(session: Session)
      modifies this
      ensures Contents() == old(Contents()).Put(session)
    {
      stateToId := stateToId[session.state := session.id];
      sessions := sessions[session.id := session];
    }

    method GetSessionByState(state: string) returns (session: Option<Session>)
      ensures session == Contents().ByState(state)
    {
      session := None;
      if state in stateToId {
        var id := stateToId[state];
        if id in sessions {
          session := Some(sessions[id]);
        }
      }
    }

    method DeleteSession(id: string)
      modifies this
      ensures Contents() == old(Contents()).Delete(id)
    {
      if id in sessions {
        var session := sessions[id];
        sessions := sessions - {id};
        stateToId := stateToId - {session.state};
      }
    }
  }

  // ---- Queries ----------------------------------------------------------------------------------

  /** A claim is present, with one of the values asked for; a query without a path asks nothing. */
  predicate ClaimMet(query: ClaimQuery, claims: map<string, Json>) {
    query.path != [] ==>
      && query.path[0] in claims
      && (query.values.Some? ==> claims[query.path[0]] in query.values.value)
  }

  predicate QueryMet(query: CredentialQuery, claims: map<string, Json>) {
    query.claims.Some? ==> forall i :: 0 <= i < |query.claims.value| ==> ClaimMet(query.claims.value[i], claims)
  }

  predicate AllMet(query: Option<seq<CredentialQuery>>, claims: map<string, Json>) {
    query.Some? ==> forall i :: 0 <= i < |query.value| ==> QueryMet(query.value[i], claims)
  }

  /** Whether the disclosed claims answer a credential query. */
  method EvaluateCredentialQuery(query: CredentialQuery, claims: map<string, Json>) returns (met: bool)
    ensures met == QueryMet(query, claims)
  {
    if query.claims.Some? {
      for i := 0 to |query.claims.value|
        invariant forall j :: 0 <= j < i ==> ClaimMet(query.claims.value[j], claims)
      {
        var claim := query.claims.value[i];
        if claim.path != [] {
          if claim.path[0] !in claims {
            return false;
          }
          if claim.values.Some? && claims[claim.path[0]] !in claim.values.value {
            return false;
          }
        }
      }
    }
    met := true;
  }

  // ---- Responses -----------------------------------------------------------------------------------

  datatype ResponseError =
    | MissingVpToken | InvalidState | SessionExpired | NonceMismatch | KeyBindingFailed | VerificationFailed
    | QueryNotSatisfied

  datatype Response = Response(vpToken: Option<Json>, state: Option<string>)

  datatype VerificationResult = VerificationResult(sessionId: string, claims: map<string, Json>)

  function KeyBindingError(e: SdJwtError): ResponseError {
    match e
    case KeyBinding(problem) => if problem in {KeyBindingProblem.NonceMismatch,
                                               NonceMissing} then ResponseError.NonceMismatch else KeyBindingFailed
    case _ => KeyBindingFailed
  }

  /** An SD-JWT VC with proof that its holder presents it, for this nonce and audience. */
  function VerifySdJwtVp(lib: Library, sdJwt: string, issuerKey: Jwk, nonce: string, audience: string, now: int)
    : Result<map<string, Json>, ResponseError>
  {
    match Verified(lib, sdJwt, issuerKey, now)
    case Err(_) => Err(VerificationFailed)
    case Ok(verified) =>
      match verified.HolderJwk()
      case None => Err(KeyBindingFailed)
      case Some(holder) =>
        match VerifyKeyBinding(lib, sdJwt, holder, nonce, audience)
        case Err(e) => Err(KeyBindingError(e))
        case Ok(_) => Ok(verified.claims)
  }

  function VerifyJwtVp(lib: Library, jwt: string, issuerKey: Jwk): Result<map<string, Json>, ResponseError> {
    match VerifyCompact(lib, jwt, issuerKey)
    case Err(_) => Err(VerificationFailed)
    case Ok(decoded) =>
      match lib.parseJson(decoded.payload)
      case None => Err(VerificationFailed)
      case Some(payload) => Ok(if payload.Obj? then payload.fields else map[])
  }

  function VerifyToken(lib: Library, token: Json, issuerKey: Jwk, session: Session, now: int)
    : Result<map<string, Json>, ResponseError>
  {
    match token
    case Str(text) =>
      if '~' in text then VerifySdJwtVp(lib, text, issuerKey, session.nonce, session.clientId, now)
      else VerifyJwtVp(lib, text, issuerKey)
    case _ => Err(VerificationFailed)
  }

  /** The claims of a response, when it passes every check for its session. */
  function CheckResponse(lib: Library, response: Response, issuerKey: Jwk, session: Session, now: int)
    : Result<map<string, Json>, ResponseError>
  {
    if response.vpToken.None? then Err(MissingVpToken)
    else
      var claims :- VerifyToken(lib, response.vpToken.value, issuerKey, session, now);
      if AllMet(session.query, claims) then Ok(claims) else Err(QueryNotSatisfied)
  }

  /** What a response does: a session ends when it succeeds or turns out expired, and stays otherwise. */
  function Respond(lib: Library, store: Store, response: Response, issuerKey: Jwk, now: int)
    : (Result<VerificationResult, ResponseError>, Store)
  {
    if response.state.None? then (Err(InvalidState), store)
    else match store.ByState(response.state.value)
      case None => (Err(InvalidState), store)
      case Some(session) =>
        if now > session.expiresAt then (Err(SessionExpired), store.Delete(session.id))
        else match CheckResponse(lib, response, issuerKey, session, now)
          case Err(e) => (Err(e), store)
          case Ok(claims) => (Ok(VerificationResult(session.id, claims)), store.Delete(session.id))
  }

  method ProcessResponse(lib: Library, response: Response, issuerKey: Jwk, state: InMemoryVerifierState, now: int)
    returns (r: Result<VerificationResult, ResponseError>)
    modifies state
    ensures (r, state.Contents()) == Respond(lib, old(state.Contents()), response, issuerKey, now)
  {
    hide VerifyToken, QueryMet;
    if response.state.None? {
      return Err(InvalidState);
    }
    var found := state.GetSessionByState(response.state.value);
    if found.None? {
      return Err(InvalidState);
    }
    var session := found.value;
    if now > session.expiresAt {
      state.DeleteSession(session.id);
      return Err(SessionExpired);
    }
    if response.vpToken.None? {
      return Err(MissingVpToken);
    }
    var claims := VerifyToken(lib, response.vpToken.value, issuerKey, session, now);
    if claims.Err? {
      return Err(claims.error);
    }
    if session.query.Some? {
      for i := 0 to |session.query.value|
        invariant forall j :: 0 <= j < i ==> QueryMet(session.query.value[j], claims.value)
        invariant state.Contents() == old(state.Contents())
      {
        var met := EvaluateCredentialQuery(session.query.value[i], claims.value);
        if !met {
          return Err(QueryNotSatisfied);
        }
      }
    }
    state.DeleteSession(session.id);
    r := Ok(VerificationResult(session.id, claims.value));
  }

  // ---- When a response is accepted -------------------------------------------------------------------

  /** The claims have what a query asks: each claim it names by a path is there under the path's first
      step, with one of the values asked for if any are. */
  ghost predicate Answers(query: CredentialQuery, claims: map<string, Json>) {
    query.claims.Some? ==>
      forall c :: c in query.claims.value && c.path != [] ==>
        && c.path[0] in claims
        && (c.values.Some? ==> exists i :: 0 <= i < |c.values.value| && c.values.value[i] == claims[c.path[0]])
  }

  ghost predicate AnswersAll(query: Option<seq<CredentialQuery>>, claims: map<string, Json>) {
    query.Some? ==> forall q :: q in query.value ==> Answers(q, claims)
  }

  lemma MetIsAnswered(query: CredentialQuery, claims: map<string, Json>)
    ensures QueryMet(query, claims) <==> Answers(query, claims)
  {
    if query.claims.Some? {
      var cs := query.claims.value;
      assert forall i :: 0 <= i < |cs| ==> cs[i] in cs;
    }
  }

  lemma AllMetIsAnswered(query: Option<seq<CredentialQuery>>, claims: map<string, Json>)
    ensures AllMet(query, claims) <==> AnswersAll(query, claims)
  {
    hide QueryMet, Answers;
    if query.Some? {
      forall i | 0 <= i < |query.value| ensures QueryMet(query.value[i], claims) <==> Answers(query.value[i], claims) {
        MetIsAnswered(query.value[i], claims);
      }
      assert forall i :: 0 <= i < |query.value| ==> query.value[i] in query.value;
    }
  }

  /** The token is a presentation of these claims for a session: an SD-JWT VC of the issuer's with a key
      binding by its holder for the session's nonce and client, or any other text the issuer signed as a
      JWT. */
  ghost predicate Presents(lib: Library, token: Json, issuerKey: Jwk, session: Session, now: int,
                           claims: map<string, Json>) {
    && token.Str?
    && if '~' in token.s then
         var verified := Verified(lib, token.s, issuerKey, now);
         && verified.Ok? && verified.value.claims == claims && verified.value.HolderJwk().Some?
         && VerifyKeyBinding(lib, token.s, verified.value.HolderJwk().value, session.nonce, session.clientId).Ok?
       else
         var decoded := DecodeCompact(lib, token.s);
         && decoded.Ok? && lib.verify(issuerKey, decoded.value.signingInput, decoded.value.signature)
         && lib.parseJson(decoded.value.payload).Some?
         && var payload := lib.parseJson(decoded.value.payload).value;
         claims == if payload.Obj? then payload.fields else map[]
  }

  lemma TokenIff(lib: Library, token: Json, issuerKey: Jwk, session: Session, now: int, claims: map<string, Json>)
    ensures VerifyToken(lib, token, issuerKey, session, now) == Ok(claims) <==>
            Presents(lib, token, issuerKey, session, now, claims)
  {
    hide Verified, VerifyKeyBinding, DecodeCompact;
  }

  /** The session a response is for. */
  function SessionOf(store: Store, response: Response): Option<Session> {
    match response.state case Some(state) => store.ByState(state) case None => None
  }

  /** A response is accepted iff its state names a session that has not expired and it presents claims
      for that session that answer all its queries; then the result is that session's and has those
      claims. */
  lemma AcceptedIff(lib: Library, store: Store, response: Response, issuerKey: Jwk, now: int, id: string,
                    claims: map<string, Json>)
    ensures Respond(lib, store, response, issuerKey, now).0 == Ok(VerificationResult(id, claims)) <==>
            && SessionOf(store, response).Some?
            && var session := SessionOf(store, response).value;
            && session.id == id && now <= session.expiresAt && response.vpToken.Some?
            && Presents(lib, response.vpToken.value, issuerKey, session, now, claims)
            && AnswersAll(session.query, claims)
  {
    hide AllMet, AnswersAll, VerifyToken, Presents, Store.ByState;
    if SessionOf(store, response).Some? && response.vpToken.Some? {
      TokenIff(lib, response.vpToken.value, issuerKey, SessionOf(store, response).value, now, claims);
      AllMetIsAnswered(SessionOf(store, response).value.query, claims);
    }
  }

  /** An accepted response and one that comes too late end their session; any other leaves the store as it
      is, so it can be answered again. No other session is ever touched. */
  lemma SessionEndsIff(lib: Library, store: Store, response: Response, issuerKey: Jwk, now: int)
    requires store.Inverse()
    ensures var (r, after) := Respond(lib, store, response, issuerKey, now);
            var session := SessionOf(store, response);
            && (r == Err(InvalidState) <==> session.None?)
            && (r == Err(SessionExpired) <==> session.Some? && now > session.value.expiresAt)
            && (after == store <==> r.Err? && r.error != SessionExpired)
            && (after != store ==>
                  && session.Some? && after.sessions == store.sessions - {session.value.id}
                  && forall state :: after.ByState(state)
                                     == if response.state == Some(state) then None else store.ByState(state))
            && after.Inverse()
  {
    hide CheckResponse;
    if SessionOf(store, response).Some? {
      TokenNeverLate(lib, response, issuerKey, SessionOf(store, response).value, now);
    }
  }

  lemma TokenNeverLate(lib: Library, response: Response, issuerKey: Jwk, session: Session, now: int)
    ensures CheckResponse(lib, response, issuerKey, session, now)
            !in {Err(ResponseError.InvalidState), Err(ResponseError.SessionExpired)}
  {
    hide Verified, VerifyKeyBinding, VerifyCompact, AllMet;
  }

  /** The reason a response is refused for is true; a nonce is called wrong iff the credential verifies for
      a holder and its key binding has another nonce or none. */
  lemma ReasonIsTrue(lib: Library, store: Store, response: Response, issuerKey: Jwk, now: int)
    requires Respond(lib, store, response, issuerKey, now).0.Err? && SessionOf(store, response).Some?
    ensures var session := SessionOf(store, response).value;
            var reason := Respond(lib, store, response, issuerKey, now).0.error;
            && (reason == SessionExpired <==> now > session.expiresAt)
            && (reason == MissingVpToken <==> now <= session.expiresAt && response.vpToken.None?)
            && (reason == QueryNotSatisfied <==>
                  && now <= session.expiresAt && response.vpToken.Some?
                  && exists claims :: Presents(lib, response.vpToken.value, issuerKey, session, now, claims)
                                      && !AnswersAll(session.query, claims))
            && (reason in {ResponseError.NonceMismatch, KeyBindingFailed} ==>
                  && response.vpToken.Some? && response.vpToken.value.Str? && '~' in response.vpToken.value.s
                  && Verified(lib, response.vpToken.value.s, issuerKey, now).Ok?)
            && (reason == ResponseError.NonceMismatch <==>
                  && now <= session.expiresAt && response.vpToken.Some? && response.vpToken.value.Str?
                  && '~' in response.vpToken.value.s
                  && WrongNonce(lib, response.vpToken.value.s, issuerKey, session, now))
  {
    hide AllMet, AnswersAll, Presents, VerifyToken, WrongNonce;
    var session := SessionOf(store, response).value;
    if response.vpToken.Some? {
      var token := response.vpToken.value;
      TokenReasons(lib, token, issuerKey, session, now);
      forall claims
        ensures VerifyToken(lib, token, issuerKey, session, now) == Ok(claims) <==>
                Presents(lib, token, issuerKey, session, now, claims)
      {
        TokenIff(lib, token, issuerKey, session, now, claims);
      }
      forall claims ensures AllMet(session.query, claims) <==> AnswersAll(session.query, claims) {
        AllMetIsAnswered(session.query, claims);
      }
    }
  }

  ghost predicate WrongNonce(lib: Library, text: string, issuerKey: Jwk, session: Session, now: int) {
    && Verified(lib, text, issuerKey, now).Ok?
    && Verified(lib, text, issuerKey, now).value.HolderJwk().Some?
    && VerifyKeyBinding(lib, text, Verified(lib, text, issuerKey, now).value.HolderJwk().value, session.nonce,
                        session.clientId)
       in {Err(KeyBinding(KeyBindingProblem.NonceMismatch)), Err(KeyBinding(NonceMissing))}
  }

  lemma TokenReasons(lib: Library, token: Json, issuerKey: Jwk, session: Session, now: int)
    ensures var r := VerifyToken(lib, token, issuerKey, session, now);
            && (r.Ok? || r.error in {ResponseError.NonceMismatch, KeyBindingFailed, VerificationFailed})
            && (r.Err? && r.error in {ResponseError.NonceMismatch, KeyBindingFailed} ==>
                  token.Str? && '~' in token.s && Verified(lib, token.s, issuerKey, now).Ok?)
            && (r == Err(ResponseError.NonceMismatch) <==>
                  token.Str? && '~' in token.s && WrongNonce(lib, token.s, issuerKey, session, now))
  {
    hide Verified, VerifyKeyBinding, VerifyCompact;
  }
}
