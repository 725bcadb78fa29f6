/** Access to the credential endpoint: the token, its scheme and its DPoP proof. */
module ResourceAccess {
  import opened Wrappers
  import opened Text
  import opened IssuerStore
  import opened Proofs
  import opened Headers

  datatype AccessError = InvalidToken | InvalidDpopProof

  function LowerChar(c: char): char {
    if 'A' <= c <= 'Z' then c + 32 as char else c
  }

  /** ASCII text compared without regard to case. */
  predicate SameIgnoringCase(a: string, b: string) {
    |a| == |b| && forall i :: 0 <= i < |a| ==> LowerChar(a[i]) == LowerChar(b[i])
  }

  /** The scheme and the token of an `Authorization` header. */
  function Credentials(authorization: string): (string, string) {
    match SplitOnce(authorization, ' ') case Some((scheme, token)) => (scheme, Trim(token)) case None => ("", "")
  }

  predicate WellFormed(authorization: string) {
    var (scheme, token) := Credentials(authorization);
    token != "" && (SameIgnoringCase(scheme, "DPoP") || SameIgnoringCase(scheme, "Bearer"))
  }

  /** Which letters the two schemes may be written with. */
  lemma SchemeLetters(s: string)
    ensures SameIgnoringCase(s, "DPoP") <==>
            |s| == 4 && s[0] in "Dd" && s[1] in "Pp" && s[2] in "Oo" && s[3] in "Pp"
    ensures SameIgnoringCase(s, "Bearer") <==>
            && |s| == 6 && s[0] in "Bb" && s[1] in "Ee" && s[2] in "Aa" && s[3] in "Rr" && s[4] in "Ee" && s[5] in "Rr"
  {
  }

  /** What is read of a header: the scheme is what stands before the first space, the token what stands
      after it, without the white space around it; and it is well formed iff there is such a token and
      the scheme is one of the two. */
  lemma HeaderMeans(authorization: string)
    ensures var (scheme, token) := Credentials(authorization);
            && (WellFormed(authorization) <==>
                  token != "" && (SameIgnoringCase(scheme, "DPoP") || SameIgnoringCase(scheme, "Bearer")))
            && (' ' !in authorization ==> scheme == "" && token == "")
            && (' ' in authorization ==>
                  && |scheme| < |authorization| && authorization[|scheme|] == ' '
                  && authorization[..|scheme|] == scheme && ' ' !in scheme
                  && Surrounds(authorization[|scheme| + 1..], token))
  {
    var split := SplitOnce(authorization, ' ');
    if split.Some? {
      var (scheme, rest) := split.value;
      assert authorization[|scheme| + 1..] == rest;
      TrimMeans(rest);
    }
  }

  /** A DPoP-bound token needs the DPoP scheme and a proof by its key; another token must do without. */
  predicate SchemeFits(grant: Grant, isDpop: bool, proofJkt: Option<string>) {
    if grant.dpopJkt.Some? then isDpop && proofJkt == grant.dpopJkt else !isDpop
  }

  /** The proof a request for a protected resource must carry. */
  function AccessContext(htu: string, token: string): DpopContext {
    DpopContext("POST", htu, Some(token))
  }

  /** The token a request may use, and the store after it was looked up and its proof recorded. A proof
      is looked at only when the scheme and the grant both call for one. */
  function Authorize(v: Verifier, authorization: string, dpop: seq<Option<string>>, htu: string, store: Store, now: int)
    : (Result<string, AccessError>, Store)
  {
    if !WellFormed(authorization) then (Err(InvalidToken), store)
    else
      var (scheme, token) := Credentials(authorization);
      var looked := store.AfterGrantAt(token, now);
      match store.GrantAt(token, now)
      case None => (Err(InvalidToken), looked)
      case Some(grant) =>
        match (grant.dpopJkt, SameIgnoringCase(scheme, "DPoP"))
        case (Some(bound), true) =>
          var (jkt, heard) := ReadDpop(v, dpop, AccessContext(htu, token), looked, now);
          (if jkt == Ok(Some(bound)) then Ok(token) else Err(InvalidDpopProof), heard)
        case (None, false) => (Ok(token), looked)
        case _ => (Err(InvalidToken), looked)
  }

  /** Access means: the header is well formed and carries the token, the token is live, and scheme and
      proof are the ones its grant calls for. Of the store nothing changes but that an expired token
      and expired identifiers are dropped, and an identifier is recorded only for a bound, live token. */
  lemma AccessIff(v: Verifier, authorization: string, dpop: seq<Option<string>>, htu: string, store: Store, now: int)
    ensures var (scheme, token) := Credentials(authorization);
            var isDpop := SameIgnoringCase(scheme, "DPoP");
            var (r, after) := Authorize(v, authorization, dpop, htu, store, now);
            var (proof, heard) := ReadDpop(v, dpop, DpopContext("POST", htu, Some(token)), store, now);
            var grant := store.GrantAt(token, now);
            && (r.Ok? <==> && WellFormed(authorization) && grant.Some?
                           && SchemeFits(grant.value, isDpop, if proof.Ok? then proof.value else None))
            && (r.Ok? ==> r == Ok(token))
            && (r == Err(InvalidDpopProof) <==> && WellFormed(authorization) && grant.Some?
                                                && grant.value.dpopJkt.Some? && isDpop
                                                && proof != Ok(grant.value.dpopJkt))
            && after == store.(accessTokens := after.accessTokens, seenJtis := after.seenJtis)
            && after.accessTokens == (if WellFormed(authorization) then store.AfterGrantAt(token, now).accessTokens
                                      else store.accessTokens)
            && after.seenJtis == (if WellFormed(authorization) && grant.Some? && grant.value.dpopJkt.Some?
                                     && isDpop then heard.seenJtis else store.seenJtis)
  {
    hide Show, SameIgnoringCase, Credentials, WellFormed;
  }

  method AuthorizeResource(v: Verifier, authorization: string, dpop: seq<Option<string>>, htu: string,
                           state: InMemoryIssuerState, now: int)
    returns (r: Result<string, AccessError>)
    modifies state`accessTokens, state`seenJtis
    ensures (r, state.Contents()) == Authorize(v, authorization, dpop, htu, old(state.Contents()), now)
  {
    hide SameIgnoringCase, Trim, SplitOnce, ReadDpop;
    var (scheme, token) := Credentials(authorization);
    if !WellFormed(authorization) {
      return Err(InvalidToken);
    }
    var grant := state.GetAccessGrant(token, now);
    if grant.None? {
      return Err(InvalidToken);
    }
    match (grant.value.dpopJkt, SameIgnoringCase(scheme, "DPoP")) {
      case (Some(bound), true) =>
        var jkt := DpopKey(v, dpop, AccessContext(htu, token), state, now);
        if jkt != Ok(Some(bound)) {
          return Err(InvalidDpopProof);
        }
      case (None, false) =>
      case _ => return Err(InvalidToken);
    }
    r := Ok(token);
  }
}
