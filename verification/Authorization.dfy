/** Pushed authorization requests, consent, and PKCE. */
module Authorization {
  import opened Wrappers
  import opened Text
  import opened IssuerStore
  import Jws

  /** A supported credential configuration, as far as the issuer looks at it. */
  datatype Configuration = Configuration(
    scope: Option<string>, format: string, vct: Option<string>, doctype: Option<string>, proofAlgs: Option<seq<string>>)

  datatype Metadata = Metadata(supported: map<string, Configuration>, batchSize: Option<nat>)

  datatype Detail = Detail(detailType: string, configId: Option<string>)

  datatype ParRequest = ParRequest(
    requestUri: Option<string>, clientId: string, dpopJkt: Option<string>, responseType: string,
    codeChallenge: string, codeChallengeMethod: string, redirectUri: string,
    details: Option<seq<Detail>>, scope: Option<string>)

  datatype AuthorizationError =
    | InvalidRequest | DpopJktMismatch | UnsupportedResponseType | InvalidCodeChallengeMethod
    | MissingParameter | InvalidAuthorizationDetails | InvalidScope

  const REQUEST_URI_TTL: int := 60
  const CODE_TTL: int := 60
  const URI_PREFIX: string := "urn:ietf:params:oauth:request_uri:"

  // ---- Which configurations a request asks for -------------------------------------------

  predicate GoodDetail(metadata: Metadata, d: Detail) {
    d.detailType == "openid_credential" && d.configId.Some? && d.configId.value in metadata.supported
  }

  /** The configurations that requested authorization details name, in order, repeats included. */
  function DetailIds(details: seq<Detail>): (ids: seq<string>)
    requires forall i :: 0 <= i < |details| ==> details[i].configId.Some?
  {
    seq(|details|, i requires 0 <= i < |details| => details[i].configId.value)
  }

  predicate HasScope(config: Configuration, scopes: seq<string>) {
    config.scope.Some? && config.scope.value in scopes
  }

  function ScopeIds(metadata: Metadata, scope: Option<string>): set<string> {
    var scopes := Words(if scope.Some? then scope.value else "");
    set id | id in metadata.supported && HasScope(metadata.supported[id], scopes)
  }

  /** Strings in the order of their characters. */
  predicate Before(a: string, b: string) {
    if b == "" then false
    else if a == "" then true
    else a[0] < b[0] || (a[0] == b[0] && Before(a[1..], b[1..]))
  }

  lemma {:induction false} BeforeTotal(a: string, b: string)
    ensures Before(a, b) || Before(b, a) || a == b
  {
    if a != "" && b != "" {
      BeforeTotal(a[1..], b[1..]);
      if a[0] == b[0] && a[1..] == b[1..] {
        assert a == [a[0]] + a[1..] && b == [b[0]] + b[1..];
      }
    }
  }

  lemma {:induction false} BeforeTransitive(a: string, b: string, c: string)
    requires Before(a, b) && Before(b, c)
    ensures Before(a, c)
  {
    if a != "" && a[0] == b[0] == c[0] {
      BeforeTransitive(a[1..], b[1..], c[1..]);
    }
  }

  lemma {:induction false} NotBeforeSelf(a: string)
    ensures !Before(a, a)
  {
    if a != "" {
      NotBeforeSelf(a[1..]);
    }
  }

  /** In order, hence without repeats. */
  ghost predicate Sorted(ids: seq<string>) {
    forall i, j :: 0 <= i < j < |ids| ==> Before(ids[i], ids[j])
  }

  /** The members of a set, sorted. */
  ghost predicate Lists(ids: seq<string>, members: set<string>) {
    Sorted(ids) && forall id :: id in ids <==> id in members
  }

  lemma {:induction false} ListsUnique(a: seq<string>, b: seq<string>, members: set<string>)
    requires Lists(a, members) && Lists(b, members)
    ensures a == b
    decreases |a|
  {
    if a == [] {
      if b != [] {
        HasMember(b);
      }
    } else {
      assert a[0] in members && a[0] in b;
      var i :| 0 <= i < |b| && b[i] == a[0];
      assert b[0] in members && b[0] in a;
      var j :| 0 <= j < |a| && a[j] == b[0];
      if i > 0 && j > 0 {
        BeforeTransitive(a[0], b[0], a[0]);
        NotBeforeSelf(a[0]);
      }
      TailLists(a, members);
      TailLists(b, members);
      assert a[0] == b[0];
      ListsUnique(a[1..], b[1..], members - {a[0]});
    }
  }

  lemma HasMember(ids: seq<string>)
    requires ids != []
    ensures exists id :: id in ids
  {
    assert ids[0] in ids;
  }

  lemma TailLists(ids: seq<string>, members: set<string>)
    requires ids != [] && Lists(ids, members)
    ensures Lists(ids[1..], members - {ids[0]})
  {
    forall id ensures id in ids[1..] <==> id in members - {ids[0]} {
      NotBeforeSelf(id);
      assert id in ids <==> id == ids[0] || id in ids[1..];
      if id in ids[1..] {
        var i :| 0 <= i < |ids| - 1 && ids[1..][i] == id;
        assert ids[i + 1] == id && Before(ids[0], ids[i + 1]);
      }
    }
  }

  /** Insert into a sorted list. */
  method InsertSorted(ids: seq<string>, id: string) returns (r: seq<string>)
    requires Sorted(ids) && id !in ids
    ensures Sorted(r) && forall x :: x in r <==> x in ids || x == id
  {
    hide Before;
    var i := 0;
    while i < |ids| && Before(ids[i], id)
      invariant 0 <= i <= |ids|
      invariant forall j :: 0 <= j < i ==> Before(ids[j], id)
    {
      i := i + 1;
    }
    r := ids[..i] + [id] + ids[i..];
    assert ids == ids[..i] + ids[i..];
    if i < |ids| {
      BeforeTotal(ids[i], id);
      forall j | i <= j < |ids| ensures Before(id, ids[j]) {
        if j > i {
          BeforeTransitive(id, ids[i], ids[j]);
        }
      }
    }
  }

  /** The outcome of working out what a request asks for. */
  ghost predicate Resolves(metadata: Metadata, request: ParRequest,
                           r: Result<(seq<string>, bool), AuthorizationError>) {
    match request.details
    case Some(details) =>
      if details != [] && forall i :: 0 <= i < |details| ==> GoodDetail(metadata, details[i])
      then r == Ok((DetailIds(details), true))
      else r == Err(InvalidAuthorizationDetails)
    case None =>
      if ScopeIds(metadata, request.scope) == {} then r == Err(InvalidScope)
      else r.Ok? && !r.value.1 && Lists(r.value.0, ScopeIds(metadata, request.scope))
  }

  /** Work out which credential configurations a request asks for. */
  method RequestedConfigurations(metadata: Metadata, request: ParRequest)
    returns (r: Result<(seq<string>, bool), AuthorizationError>)
    ensures Resolves(metadata, request, r)
  {
    hide Before, Words;
    if request.details.Some? {
      var details := request.details.value;
      var ids := [];
      for k := 0 to |details|
        invariant |ids| == k
        invariant forall i :: 0 <= i < k ==> GoodDetail(metadata, details[i]) && ids[i] == details[i].configId.value
      {
        if !GoodDetail(metadata, details[k]) {
          return Err(InvalidAuthorizationDetails);
        }
        ids := ids + [details[k].configId.value];
      }
      if ids == [] {
        return Err(InvalidAuthorizationDetails);
      }
      assert ids == DetailIds(details);
      return Ok((ids, true));
    }
    var scopes := Words(if request.scope.Some? then request.scope.value else "");
    var left := metadata.supported.Keys;
    var ids: seq<string> := [];
    while left != {}
      invariant left <= metadata.supported.Keys
      invariant Sorted(ids)
      invariant forall id :: id in ids <==> id in metadata.supported && id !in left
                                            && HasScope(metadata.supported[id], scopes)
      decreases left
    {
      var id :| id in left;
      left := left - {id};
      if HasScope(metadata.supported[id], scopes) {
        ids := InsertSorted(ids, id);
      }
    }
    var members := ScopeIds(metadata, request.scope);
    assert forall id :: id in ids <==> id in members;
    if ids == [] {
      return Err(InvalidScope);
    }
    assert ids[0] in members;
    r := Ok((ids, false));
  }

  // ---- The pushed request -----------------------------------------------------------------

  /** The checks before the configurations are worked out; the key the token must be bound to. */
  function CheckPar(request: ParRequest, client: string, proofJkt: Option<string>)
    : Result<Option<string>, AuthorizationError>
  {
    if request.requestUri.Some? then Err(InvalidRequest)
    else if request.clientId != client then Err(InvalidRequest)
    else if request.dpopJkt.Some? && proofJkt.Some? && request.dpopJkt != proofJkt then Err(DpopJktMismatch)
    else if request.responseType != "code" then Err(UnsupportedResponseType)
    else if request.codeChallengeMethod != "S256" then Err(InvalidCodeChallengeMethod)
    else if request.codeChallenge == "" then Err(MissingParameter)
    else Ok(if proofJkt.Some? then proofJkt else request.dpopJkt)
  }

  function NewSession(request: ParRequest, uri: string, jkt: Option<string>, ids: seq<string>, viaDetails: bool,
                      now: int): Session {
    Session(uri, None, request.codeChallenge, request.clientId, request.redirectUri, ids, viaDetails, now, None, jkt,
            false)
  }

  /** What a pushed request does: nothing but an error, or a session under a new `request_uri`. */
  ghost predicate Pars(metadata: Metadata, request: ParRequest, client: string, proofJkt: Option<string>, uuid: string,
                       now: int,
                       before: Store, r: Result<string, AuthorizationError>, after: Store) {
    match CheckPar(request, client, proofJkt)
    case Err(e) => r == Err(e) && after == before
    case Ok(jkt) =>
      match r
      case Err(e) => Resolves(metadata, request, Err(e)) && after == before
      case Ok(uri) =>
        && uri == URI_PREFIX + uuid
        && (exists ids, via :: Resolves(metadata, request, Ok((ids, via)))
                               && after == before.StoreSession(uri, NewSession(request, uri, jkt, ids, via, now)))
  }

  /** A configuration the issuer supports, under a scope the request names. */
  ghost predicate InScope(metadata: Metadata, request: ParRequest, id: string) {
    && id in metadata.supported && metadata.supported[id].scope.Some? && request.scope.Some?
    && IsWord(request.scope.value, metadata.supported[id].scope.value)
  }

  /** The request asks for something: authorization details, all for credentials the issuer supports, or
      scopes of which one is supported. */
  ghost predicate Asks(metadata: Metadata, request: ParRequest) {
    match request.details
    case Some(details) =>
      && details != []
      && forall i :: 0 <= i < |details| ==>
           && details[i].detailType == "openid_credential"
           && details[i].configId.Some? && details[i].configId.value in metadata.supported
    case None => exists id :: InScope(metadata, request, id)
  }

  /** These are the configurations it asks for: those of its details, one by one, or those in its scopes,
      each once, in the order of their ids. */
  ghost predicate AsksFor(metadata: Metadata, request: ParRequest, ids: seq<string>) {
    match request.details
    case Some(details) =>
      |ids| == |details| && forall i :: 0 <= i < |ids| ==> details[i].configId == Some(ids[i])
    case None => Sorted(ids) && forall id :: id in ids <==> InScope(metadata, request, id)
  }

  /** What a handled pushed request means: it is accepted iff it is the authenticated client's own code
      request, refers to no other, has an S256 challenge, DPoP keys that do not clash, and asks for
      something supported. Then exactly one session is new: that client's, open, unredeemed, for the
      challenge, bound to the proof's key if there is one and else to the key the request names. */
  lemma PushedSession(metadata: Metadata, request: ParRequest, client: string, proofJkt: Option<string>, uuid: string,
                      now: int,
                      before: Store, r: Result<string, AuthorizationError>, after: Store)
    requires Pars(metadata, request, client, proofJkt, uuid, now, before, r, after)
    ensures r.Ok? <==>
            && request.clientId == client && request.requestUri.None? && request.responseType == "code"
            && request.codeChallengeMethod == "S256" && request.codeChallenge != ""
            && !(request.dpopJkt.Some? && proofJkt.Some? && request.dpopJkt != proofJkt)
            && Asks(metadata, request)
    ensures r.Err? ==> after == before
    ensures r.Ok? ==>
            && r.value in after.sessions && after.sessions - {r.value} == before.sessions - {r.value}
            && var s := after.sessions[r.value];
            && s.requestUri == r.value && s.clientId == client && s.codeChallenge == request.codeChallenge
            && s.redirectUri == request.redirectUri && s.createdAt == now
            && s.authorizationCode.None? && s.codeIssuedAt.None? && !s.consumed
            && s.dpopJkt == (if proofJkt.Some? then proofJkt else request.dpopJkt)
            && s.configIds != [] && (forall i :: 0 <= i < |s.configIds| ==> s.configIds[i] in metadata.supported)
            && AsksFor(metadata, request, s.configIds) && s.viaDetails == request.details.Some?
    ensures r.Err? ==> TrueReason(metadata, request, client, proofJkt, r.error)
  {
    hide ScopeIds, GoodDetail, Asks, InScope, Sorted;
    if r.Ok? {
      var jkt := CheckPar(request, client, proofJkt).value;
      var ids, via :| Resolves(metadata, request, Ok((ids, via)))
                      && after == before.StoreSession(r.value, NewSession(request, r.value, jkt, ids, via, now));
      ResolvedSupported(metadata, request, ids, via);
      ResolvesIffAsks(metadata, request, Ok((ids, via)));
    } else if CheckPar(request, client, proofJkt).Ok? {
      ResolvesIffAsks(metadata, request, Err(r.error));
    }
  }

  lemma ResolvesIffAsks(metadata: Metadata, request: ParRequest, r: Result<(seq<string>, bool), AuthorizationError>)
    requires Resolves(metadata, request, r)
    ensures r.Ok? <==> Asks(metadata, request)
    ensures r.Ok? ==> AsksFor(metadata, request, r.value.0) && r.value.1 == request.details.Some?
    ensures r.Err? ==> r.error == if request.details.Some? then InvalidAuthorizationDetails else InvalidScope
  {
    hide ScopeIds, InScope, Sorted;
    ScopesAreWords(metadata, request);
  }

  lemma ScopesAreWords(metadata: Metadata, request: ParRequest)
    ensures forall id :: id in ScopeIds(metadata, request.scope) <==> InScope(metadata, request, id)
    ensures ScopeIds(metadata, request.scope) == {} <==> !exists id :: InScope(metadata, request, id)
  {
    hide Words, IsWord;
    forall id | id in metadata.supported && metadata.supported[id].scope.Some?
      ensures id in ScopeIds(metadata, request.scope) <==> InScope(metadata, request, id)
    {
      var scope := metadata.supported[id].scope.value;
      WordsMeans(if request.scope.Some? then request.scope.value else "", scope);
      NoWordOfNothing(scope);
    }
    var ids := ScopeIds(metadata, request.scope);
    if ids != {} {
      var id :| id in ids;
      assert InScope(metadata, request, id);
    }
  }

  lemma NoWordOfNothing(w: string)
    ensures !IsWord("", w)
  {
  }

  /** The reason given for refusing a pushed request is true. */
  ghost predicate TrueReason(metadata: Metadata, request: ParRequest, client: string, proofJkt: Option<string>,
                             e: AuthorizationError) {
    match e
    case InvalidRequest => request.requestUri.Some? || request.clientId != client
    case DpopJktMismatch => request.dpopJkt.Some? && proofJkt.Some? && request.dpopJkt != proofJkt
    case UnsupportedResponseType => request.responseType != "code"
    case InvalidCodeChallengeMethod => request.codeChallengeMethod != "S256"
    case MissingParameter => request.codeChallenge == ""
    case InvalidAuthorizationDetails => request.details.Some? && !Asks(metadata, request)
    case InvalidScope => request.details.None? && !Asks(metadata, request)
  }

  method ProcessPar(metadata: Metadata, request: ParRequest, client: string, proofJkt: Option<string>, uuid: string,
                    state: InMemoryIssuerState, now: int) returns (r: Result<string, AuthorizationError>)
    modifies state`sessions
    ensures Pars(metadata, request, client, proofJkt, uuid, now, old(state.Contents()), r, state.Contents())
  {
    hide Resolves;
    var jkt := CheckPar(request, client, proofJkt);
    if jkt.Err? {
      return Err(jkt.error);
    }
    var resolved := RequestedConfigurations(metadata, request);
    if resolved.Err? {
      return Err(resolved.error);
    }
    var (ids, via) := resolved.value;
    var uri := URI_PREFIX + uuid;
    state.StoreAuthorizationSession(uri, NewSession(request, uri, jkt.value, ids, via, now));
    r := Ok(uri);
  }

  /** Whatever a request resolves to is supported. */
  lemma ResolvedSupported(metadata: Metadata, request: ParRequest, ids: seq<string>, via: bool)
    requires Resolves(metadata, request, Ok((ids, via)))
    ensures ids != [] && forall i :: 0 <= i < |ids| ==> ids[i] in metadata.supported
  {
    hide Words;
    if request.details.None? {
      var members := ScopeIds(metadata, request.scope);
      var id :| id in members;
      assert id in ids;
      forall i | 0 <= i < |ids| ensures ids[i] in metadata.supported {
        assert ids[i] in members;
      }
    }
  }

  // ---- The decision ---------------------------------------------------------------------------

  datatype DecisionError = Page | Redirected

  /** A `request_uri` works for the client that pushed it, for a minute, until it has a code. */
  function ResolveRequestUri(store: Store, requestUri: Option<string>, clientId: Option<string>, now: int)
    : Result<Session, DecisionError>
  {
    match requestUri
    case None => Err(Page)
    case Some(uri) =>
      if uri !in store.sessions then Err(Page)
      else
        var session := store.sessions[uri];
        if clientId != Some(session.clientId) then Err(Page)
        else if now - session.createdAt >= REQUEST_URI_TTL * SECOND then Err(Redirected)
        else if session.authorizationCode.Some? then Err(Redirected)
        else Ok(session)
  }

  datatype Decided = Code(code: string) | Denied | Refused(error: DecisionError)

  /** What the consent form's submission does. `validUrl`: the stored redirect URI parses. */
  function Decide(store: Store, validUrl: string -> bool, uri: string, clientId: string, decision: string, code: string,
                  now: int): (Decided, Store) {
    match ResolveRequestUri(store, Some(uri), Some(clientId), now)
    case Err(e) => (Refused(e), store)
    case Ok(session) =>
      if !validUrl(session.redirectUri) then (Refused(Page), store)
      else if decision != "approve" then (Denied, store)
      else if session.requestUri !in store.sessions then (Refused(Page), store)
      else (Code(code), store.SetCode(session.requestUri, code, now))
  }

  /** A decision gives a code iff it approves, for the client that pushed the request, within a minute,
      one that has no code yet and whose redirect URI parses; any other decision changes nothing. */
  lemma ApprovedIff(store: Store, validUrl: string -> bool, uri: string, clientId: string, decision: string,
                    code: string, now: int)
    requires uri in store.sessions ==> store.sessions[uri].requestUri == uri
    ensures var (r, after) := Decide(store, validUrl, uri, clientId, decision, code, now);
            && (r.Code? <==> uri in store.sessions && decision == "approve"
                             && store.sessions[uri].clientId == clientId
                             && now < store.sessions[uri].createdAt + REQUEST_URI_TTL * SECOND
                             && store.sessions[uri].authorizationCode.None?
                             && validUrl(store.sessions[uri].redirectUri))
            && (!r.Code? ==> after == store)
            && (r.Code? ==>
                  && r == Code(code)
                  && after.SessionByCode(code)
                     == Some(store.sessions[uri].(authorizationCode := Some(code), codeIssuedAt := Some(now)))
                  && after.sessions - {uri} == store.sessions - {uri})
  {
  }

  /** What the caller is told of a decision that gives no code: that it denied a request it could have
      approved; that the request is spent or too old, by a redirect to its client; and otherwise nothing
      but a page, so that no client is redirected to for a request that is not its own. */
  lemma RefusedMeans(store: Store, validUrl: string -> bool, uri: string, clientId: string, decision: string,
                     code: string, now: int)
    requires uri in store.sessions ==> store.sessions[uri].requestUri == uri
    ensures var r := Decide(store, validUrl, uri, clientId, decision, code, now).0;
            var own := uri in store.sessions && store.sessions[uri].clientId == clientId;
            var usable := own && now < store.sessions[uri].createdAt + 60_000
                          && store.sessions[uri].authorizationCode.None?;
            && (r == Denied <==> usable && validUrl(store.sessions[uri].redirectUri) && decision != "approve")
            && (r == Refused(Redirected) <==> own && !usable)
            && (r == Refused(Page) <==> !own || (usable && !validUrl(store.sessions[uri].redirectUri)))
  {
  }

  /** A live request stays usable after a decision iff no code was given: it denies, or the redirect URI
      does not parse. Only an approval spends a request. */
  lemma SpentIff(store: Store, validUrl: string -> bool, uri: string, clientId: string, decision: string, code: string,
                 now: int, later: int)
    requires ResolveRequestUri(store, Some(uri), Some(clientId), now).Ok? && store.sessions[uri].requestUri == uri
    requires now <= later < store.sessions[uri].createdAt + REQUEST_URI_TTL * SECOND
    ensures var session := store.sessions[uri];
            var (_, after) := Decide(store, validUrl, uri, clientId, decision, code, now);
            ResolveRequestUri(after, Some(uri), Some(clientId), later).Ok?
            <==> decision != "approve" || !validUrl(session.redirectUri)
  {
  }

  /** Record the user's choice. */
  method AuthorizeDecision(state: InMemoryIssuerState, validUrl: string -> bool, uri: string, clientId: string,
                           decision: string,
                           code: string, now: int) returns (r: Decided)
    modifies state`sessions, state`codeToUri
    ensures (r, state.Contents()) == Decide(old(state.Contents()), validUrl, uri, clientId, decision, code, now)
  {
    var resolved := ResolveRequestUri(state.Contents(), Some(uri), Some(clientId), now);
    if resolved.Err? {
      return Refused(resolved.error);
    }
    var session := resolved.value;
    if !validUrl(session.redirectUri) {
      return Refused(Page);
    }
    if decision != "approve" {
      return Denied;
    }
    var found := state.SetAuthorizationCode(session.requestUri, code, now);
    r := if found then Code(code) else Refused(Page);
  }

  // ---- PKCE ---------------------------------------------------------------------------------------

  /** The challenge is the hash of the verifier. */
  predicate VerifyPkce(lib: Jws.Library, verifier: string, challenge: string) {
    Jws.HashText(lib, verifier) == challenge
  }

  /** Only one verifier answers a challenge. */
  lemma OneVerifier(lib: Jws.Library, a: string, b: string, challenge: string)
    requires Jws.Ideal(lib) && VerifyPkce(lib, a, challenge) && VerifyPkce(lib, b, challenge)
    ensures a == b
  {
    Jws.HashInjective(lib, a, b);
  }
}
