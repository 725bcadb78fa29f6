/** Proofs of possession sent with a request: DPoP (RFC 9449) and attestation-based client authentication. */
module Proofs {
  import opened Wrappers
  import opened Text
  import opened Base64
  import opened Jws
  import opened IssuerStore
  import opened ReplayCache

  /** URL normalization and RFC 7638 thumbprints, with the cryptographic libraries. */
  datatype Env = Env(lib: Library, normalizeUrl: string -> Option<string>, thumbprint: Jwk -> string)

  // ---- DPoP ------------------------------------------------------------------------

  datatype DpopContext = DpopContext(htm: string, htu: string, accessToken: Option<string>)

  /** What a proof shows once every check but the last has passed. */
  datatype Shown = Shown(key: string, iat: int, who: string)

  predicate AthMatches(env: Env, claims: Json, accessToken: Option<string>) {
    accessToken.Some? ==> claims.GetStr("ath") == Some(HashText(env.lib, accessToken.value))
  }

  /** The checks of RFC 9449 section 4.3 up to the replay check. */
  function CheckDpop(env: Env, proof: string, ctx: DpopContext, now: int): Option<Shown> {
    match DecodeCompact(env.lib, proof)
    case Err(_) => None
    case Ok(decoded) =>
      var h := decoded.header;
      if h.typ != Some("dpop+jwt") || h.alg !in ["ES256", "EdDSA"] || h.jwk.None? || h.jwk.value.d.Some? then None
      else if VerifyWithPublicJwk(env.lib, proof, h.jwk.value).Err? then None
      else match env.lib.parseJson(decoded.payload)
        case None => None
        case Some(claims) =>
          if claims.GetStr("htm") != Some(ctx.htm) then None
          else match (claims.GetStr("htu"), claims.GetInt("iat"), claims.GetStr("jti"))
            case (Some(htu), Some(iat), Some(jti)) =>
              if env.normalizeUrl(htu) != env.normalizeUrl(ctx.htu) || !InWindow(iat, now)
                 || !AthMatches(env, claims, ctx.accessToken)
              then None else Some(Shown("dpop:" + jti, iat, env.thumbprint(h.jwk.value)))
            case _ => None
  }

  /** Verify a DPoP proof and record it; the thumbprint of its key. */
  method VerifyDpopProof(env: Env, proof: string, ctx: DpopContext, state: InMemoryIssuerState, now: int)
    returns (jkt: Option<string>)
    modifies state`seenJtis
    ensures var shown := CheckDpop(env, proof, ctx, now);
            && (shown.None? ==> jkt == None && state.Contents() == old(state.Contents()))
            && (shown.Some? ==> state.Contents() == old(state.Contents()).RecordJti(shown.value.key, PROOF_TTL, now))
            && (shown.Some? ==>
                  jkt == if old(state.Contents()).IsFresh(shown.value.key, now) then Some(shown.value.who) else None)
  {
    hide CheckDpop, InWindow;
    var shown := CheckDpop(env, proof, ctx, now);
    if shown.None? {
      return None;
    }
    var isNew := state.RecordJti(shown.value.key, PROOF_TTL, now);
    jkt := if isNew then Some(shown.value.who) else None;
  }

  // ---- Client attestation --------------------------------------------------------------

  datatype Attester = Attester(kid: Option<string>, jwk: Jwk)

  const SKEW: int := 60

  function SubOf(claims: Json): Option<string> {
    match claims.GetStr("sub") case Some(s) => if s == "" then None else Some(s) case None => None
  }

  predicate SignedByTrusted(env: Env, attestation: string, kid: Option<string>, trusted: seq<Attester>) {
    exists i :: 0 <= i < |trusted|
      && (kid.None? || trusted[i].kid.None? || trusted[i].kid == kid)
      && VerifyWithPublicJwk(env.lib, attestation, trusted[i].jwk).Ok?
  }

  /** `exp` (required or not) and `nbf`, with a minute's tolerance; `now` in seconds. */
  predicate InTime(claims: Json, now: int, expRequired: bool) {
    && (match claims.GetInt("exp") case Some(exp) => exp + SKEW >= now case None => !expRequired)
    && (match claims.GetInt("nbf") case Some(nbf) => nbf <= now + SKEW case None => true)
  }

  predicate SameIssuer(a: string, b: string) {
    TrimEndChar(a, '/') == TrimEndChar(b, '/')
  }

  predicate NamesIssuer(aud: Option<Json>, audience: string) {
    match aud
    case Some(Str(s)) => SameIssuer(s, audience)
    case Some(Arr(items)) => exists i :: 0 <= i < |items| && items[i].Str? && SameIssuer(items[i].s, audience)
    case _ => false
  }

  datatype AttestedClient = AttestedClient(clientId: string, instanceKey: Jwk)

  /** The attestation: signed by a trusted attester, in time, naming a client and its key. */
  function CheckAttestation(env: Env, attestation: string, trusted: seq<Attester>, now: int): Option<AttestedClient> {
    match DecodeCompact(env.lib, attestation)
    case Err(_) => None
    case Ok(decoded) =>
      if decoded.header.typ != Some("oauth-client-attestation+jwt") || decoded.header.alg != "ES256" then None
      else if !SignedByTrusted(env, attestation, decoded.header.kid, trusted) then None
      else match env.lib.parseJson(decoded.payload)
        case None => None
        case Some(claims) =>
          if claims.GetStr("iss").None? || SubOf(claims).None? || !InTime(claims, Timestamp(now), true) then None
          else match claims.Get("cnf")
            case None => None
            case Some(cnf) =>
              match cnf.Get("jwk")
              case None => None
              case Some(j) =>
                match JwkFromJson(j)
                case None => None
                case Some(jwk) => if jwk.d.Some? then None else Some(AttestedClient(SubOf(claims).value, jwk))
  }

  /** The proof that the caller holds the attested key, up to the replay check. */
  function CheckPop(env: Env, pop: string, client: AttestedClient, audience: string, now: int): Option<Shown> {
    match VerifyWithPublicJwk(env.lib, pop, client.instanceKey)
    case Err(_) => None
    case Ok(decoded) =>
      if decoded.header.typ != Some("oauth-client-attestation-pop+jwt") then None
      else match env.lib.parseJson(decoded.payload)
        case None => None
        case Some(claims) =>
          if claims.GetStr("iss").Some? && claims.GetStr("iss") != Some(client.clientId) then None
          else if !NamesIssuer(claims.Get("aud"), audience) then None
          else match (claims.GetInt("iat"), claims.GetStr("jti"))
            case (Some(iat), Some(jti)) =>
              if !InWindow(iat, now) || !InTime(claims, Timestamp(now), false) then None
              else Some(Shown("attestation-pop:" + client.clientId + ":" + jti, iat, client.clientId))
            case _ => None
  }

  /** Authenticate a client by attestation and proof of possession. */
  method VerifyClientAttestation(env: Env, attestation: string, pop: string, trusted: seq<Attester>, audience: string,
                                 state: InMemoryIssuerState, now: int) returns (client: Option<AttestedClient>)
    modifies state`seenJtis
    ensures var attested := CheckAttestation(env, attestation, trusted, now);
            var shown := if attested.Some? then CheckPop(env, pop, attested.value, audience, now) else None;
            && (shown.None? ==> client == None && state.Contents() == old(state.Contents()))
            && (shown.Some? ==> state.Contents() == old(state.Contents()).RecordJti(shown.value.key, PROOF_TTL, now))
            && (shown.Some? ==>
                  client == if old(state.Contents()).IsFresh(shown.value.key, now) then attested else None)
  {
    hide CheckAttestation, CheckPop, InWindow;
    var attested := CheckAttestation(env, attestation, trusted, now);
    if attested.None? {
      return None;
    }
    var shown := CheckPop(env, pop, attested.value, audience, now);
    if shown.None? {
      return None;
    }
    var isNew := state.RecordJti(shown.value.key, PROOF_TTL, now);
    client := if isNew then attested else None;
  }

  // ---- Replays over whole runs ---------------------------------------------------------

  /** One proof presented with a request. */
  datatype Presented =
    | Dpop(proof: string, ctx: DpopContext, at: int)
    | Attestation(attestation: string, pop: string, at: int)

  /** The issuer that checks them. */
  datatype Verifier = Verifier(env: Env, trusted: seq<Attester>, audience: string)

  function Show(v: Verifier, p: Presented): Option<Shown> {
    match p
    case Dpop(proof, ctx, at) => CheckDpop(v.env, proof, ctx, at)
    case Attestation(attestation, pop, at) =>
      match CheckAttestation(v.env, attestation, v.trusted, at)
      case None => None
      case Some(client) => CheckPop(v.env, pop, client, v.audience, at)
  }

  function RecordingOf(v: Verifier, p: Presented): Recording {
    match Show(v, p) case Some(s) => Recording(Some(s.key), PROOF_TTL, p.at) case None => Recording(None, PROOF_TTL,
                                                                                                    p.at)
  }

  /** The recordings a run of presentations makes. */
  function Recordings(v: Verifier, ps: seq<Presented>): seq<Recording> {
    seq(|ps|, i requires 0 <= i < |ps| => RecordingOf(v, ps[i]))
  }

  ghost predicate InOrder(ps: seq<Presented>) {
    forall i, j :: 0 <= i <= j < |ps| ==> ps[i].at <= ps[j].at
  }

  /** Presentation `k` passed every check, the replay check included. */
  ghost predicate Passed(v: Verifier, ps: seq<Presented>, k: nat)
    requires k < |ps|
  {
    Accepted(Recordings(v, ps), k)
  }

  lemma ShownInWindow(v: Verifier, p: Presented)
    requires Show(v, p).Some?
    ensures InWindow(Show(v, p).value.iat, p.at)
  {
  }

  /** The same DPoP proof shows the same key and time whatever request it comes with. */
  lemma DpopShowsSame(v: Verifier, p: Presented, q: Presented)
    requires p.Dpop? && q.Dpop? && p.proof == q.proof && Show(v, p).Some? && Show(v, q).Some?
    ensures Show(v, p) == Show(v, q)
  {
  }

  /** So does the same proof of possession for the same client. */
  lemma PopShowsSame(v: Verifier, p: Presented, q: Presented)
    requires p.Attestation? && q.Attestation? && p.pop == q.pop && Show(v, p).Some? && Show(v, q).Some?
    requires Show(v, p).value.who == Show(v, q).value.who
    ensures Show(v, p) == Show(v, q)
  {
    hide InWindow, CheckAttestation, NamesIssuer, InTime;
    PopDecodes(v, p);
    PopDecodes(v, q);
  }

  /** What is read of a proof of possession is what its text decodes to. */
  lemma PopDecodes(v: Verifier, p: Presented)
    requires p.Attestation? && Show(v, p).Some?
    ensures DecodeCompact(v.env.lib, p.pop).Ok?
    ensures var claims := v.env.lib.parseJson(DecodeCompact(v.env.lib, p.pop).value.payload);
            && claims.Some? && claims.value.GetStr("jti").Some? && claims.value.GetInt("iat").Some?
            && Show(v, p) == Some(Shown("attestation-pop:" + Show(v,
                                                                  p).value.who + ":" + claims.value.GetStr("jti").value,
                                        claims.value.GetInt("iat").value, Show(v, p).value.who))
  {
    hide InWindow, CheckAttestation, NamesIssuer, InTime, DecodeCompact;
  }

  /** The payload of a proof of possession names the client. */
  predicate CarriesIss(v: Verifier, pop: string) {
    match DecodeCompact(v.env.lib, pop)
    case Err(_) => false
    case Ok(decoded) =>
      match v.env.lib.parseJson(decoded.payload) case Some(claims) => claims.GetStr("iss").Some? case None => false
  }

  /** A proof of possession that names the client serves that client only. */
  lemma IssFixesClient(v: Verifier, p: Presented, q: Presented)
    requires p.Attestation? && q.Attestation? && p.pop == q.pop && Show(v, p).Some? && Show(v, q).Some?
    requires CarriesIss(v, p.pop)
    ensures Show(v, p).value.who == Show(v, q).value.who
  {
    hide InWindow, CheckAttestation, NamesIssuer, InTime, DecodeCompact;
  }

  /** The same proof: the DPoP proof with whatever request, or the proof of possession with whatever attestation. */
  predicate SameProof(p: Presented, q: Presented) {
    || (p.Dpop? && q.Dpop? && p.proof == q.proof)
    || (p.Attestation? && q.Attestation? && p.pop == q.pop)
  }

  /** A proof of possession that names no client, shown for two different ones. */
  predicate ForAnotherClient(v: Verifier, p: Presented, q: Presented) {
    && p.Attestation? && !CarriesIss(v, p.pop)
    && Show(v, p).Some? && Show(v, q).Some? && Show(v, p).value.who != Show(v, q).value.who
  }

  lemma ShowsSame(v: Verifier, p: Presented, q: Presented)
    requires SameProof(p, q) && Show(v, p).Some? && Show(v, q).Some? && !ForAnotherClient(v, p, q)
    ensures Show(v, p) == Show(v, q)
  {
    hide Show, CarriesIss;
    if p.Dpop? {
      DpopShowsSame(v, p, q);
    } else {
      if CarriesIss(v, p.pop) {
        IssFixesClient(v, p, q);
      }
      PopShowsSame(v, p, q);
    }
  }

  /** In every run, a proof that passes with `iat` less than 60 seconds ahead passes again only if it is
      a proof of possession that names no client and comes with another client's attestation. So DPoP
      proofs and proofs of possession with `iss` pass once, and the others once for each client. */
  lemma ProofPassesOnce(v: Verifier, ps: seq<Presented>, j: nat, k: nat)
    requires InOrder(ps) && j < k < |ps| && Passed(v, ps, j) && SameProof(ps[j], ps[k])
    requires Show(v, ps[j]).Some? && Show(v, ps[j]).value.iat < Timestamp(ps[j].at) + MAX_SKEW
    ensures Passed(v, ps, k) ==> ForAnotherClient(v, ps[j], ps[k])
  {
    hide Show, InWindow, Timestamp, ForAnotherClient, SameProof;
    if Show(v, ps[k]).Some? && !ForAnotherClient(v, ps[j], ps[k]) {
      ShownInWindow(v, ps[j]);
      ShownInWindow(v, ps[k]);
      ShowsSame(v, ps[j], ps[k]);
      AcceptedOnce(Recordings(v, ps), j, k, Show(v, ps[j]).value.iat);
    }
  }

  lemma ClientsHaveOwnKeys(a: string, b: string, jti: string)
    ensures "attestation-pop:" + a + ":" + jti == "attestation-pop:" + b + ":" + jti <==> a == b
  {
    var x, y := "attestation-pop:" + a + ":" + jti, "attestation-pop:" + b + ":" + jti;
    assert x == y ==> |a| == |b| && x[16..16 + |a|] == a && y[16..16 + |b|] == b;
  }

  /** Presented twice, a proof passes the second time iff it names no client and the second attestation
      is another client's. */
  lemma PassesAgainIff(v: Verifier, p: Presented, q: Presented)
    requires SameProof(p, q) && p.at <= q.at && Show(v, p).Some? && Show(v, q).Some?
    requires Show(v, p).value.iat < Timestamp(p.at) + MAX_SKEW
    ensures Passed(v, [p, q], 0)
    ensures Passed(v, [p, q], 1) <==> ForAnotherClient(v, p, q)
  {
    hide Show, InWindow, Timestamp, CarriesIss;
    var rs := Recordings(v, [p, q]);
    CacheIsLog(rs, 0);
    CacheIsLog(rs, 1);
    ProofPassesOnce(v, [p, q], 0, 1);
    if ForAnotherClient(v, p, q) {
      PopDecodes(v, p);
      PopDecodes(v, q);
      var jti := v.env.lib.parseJson(DecodeCompact(v.env.lib, p.pop).value.payload).value.GetStr("jti").value;
      ClientsHaveOwnKeys(Show(v, p).value.who, Show(v, q).value.who, jti);
    }
  }

  /** Whether that can happen can be read off the proof: shown for one client, it is shown at the same
      instant for another client attested with the same key iff it names none. */
  lemma ServesAnotherIff(v: Verifier, p: Presented, attestation: string)
    requires p.Attestation? && Show(v, p).Some?
    requires CheckAttestation(v.env, p.attestation, v.trusted, p.at).Some?
    requires CheckAttestation(v.env, attestation, v.trusted, p.at).Some?
    requires var own := CheckAttestation(v.env, p.attestation, v.trusted, p.at).value;
             var other := CheckAttestation(v.env, attestation, v.trusted, p.at).value;
             own.instanceKey == other.instanceKey && own.clientId != other.clientId
    ensures ForAnotherClient(v, p, Attestation(attestation, p.pop, p.at)) <==> !CarriesIss(v, p.pop)
  {
    hide InWindow, CheckAttestation, NamesIssuer, InTime, DecodeCompact;
  }

  /** Recording a DPoP proof never makes a client's proof look used, nor the other way round. */
  lemma KeysDoNotCross(jti: string, clientId: string, popJti: string)
    ensures "dpop:" + jti != "attestation-pop:" + clientId + ":" + popJti
  {
    assert ("dpop:" + jti)[0] != ("attestation-pop:" + clientId + ":" + popJti)[0];
  }

  // ---- What a shown proof proves -----------------------------------------------------------------

  /** The payload a JWT carries, when both decode. */
  function PayloadOf(env: Env, jwt: string): Option<Json> {
    match DecodeCompact(env.lib, jwt) case Ok(decoded) => env.lib.parseJson(decoded.payload) case Err(_) => None
  }

  function HeaderOf(env: Env, jwt: string): Option<JwsHeader> {
    match DecodeCompact(env.lib, jwt) case Ok(decoded) => Some(decoded.header) case Err(_) => None
  }

  /** An integer claim is there, or need not be, and is at least or at most so much. */
  predicate AtLeast(claims: Json, name: string, low: int, required: bool) {
    if claims.GetInt(name).Some? then low <= claims.GetInt(name).value else !required
  }

  predicate AtMost(claims: Json, name: string, high: int) {
    claims.GetInt(name).Some? ==> claims.GetInt(name).value <= high
  }

  /** A DPoP proof: a `dpop+jwt` signed, with an algorithm the issuer supports, by the public key in its
      header, for this method, URL and access token, between 300 seconds ago and 60 seconds ahead. */
  ghost predicate DpopProof(env: Env, proof: string, ctx: DpopContext, now: int, shown: Shown) {
    && HeaderOf(env, proof).Some? && PayloadOf(env, proof).Some?
    && var h, claims := HeaderOf(env, proof).value, PayloadOf(env, proof).value;
    && h.typ == Some("dpop+jwt") && (h.alg == "ES256" || h.alg == "EdDSA")
    && h.jwk.Some? && h.jwk.value.d == None && SignedUnder(env.lib, proof, h.jwk.value)
    && claims.GetStr("htm") == Some(ctx.htm)
    && claims.GetStr("htu").Some? && env.normalizeUrl(claims.GetStr("htu").value) == env.normalizeUrl(ctx.htu)
    && (ctx.accessToken.Some? ==>
          claims.GetStr("ath") == Some(Encode(UrlUnpadded, env.lib.sha256(ctx.accessToken.value))))
    && claims.GetInt("iat") == Some(shown.iat) && Timestamp(now) - 300 <= shown.iat <= Timestamp(now) + 60
    && claims.GetStr("jti").Some? && shown.key == "dpop:" + claims.GetStr("jti").value
    && shown.who == env.thumbprint(h.jwk.value)
  }

  /** The checks on a DPoP proof pass iff it is one, and then it shows its identifier, time and key. */
  lemma DpopIff(env: Env, proof: string, ctx: DpopContext, now: int, shown: Shown)
    ensures CheckDpop(env, proof, ctx, now) == Some(shown) <==> DpopProof(env, proof, ctx, now, shown)
  {
    hide DecodeCompact, SignedUnder, VerifyWithPublicJwk, Encode, Timestamp;
    if HeaderOf(env, proof).Some? && HeaderOf(env, proof).value.jwk.Some? {
      VerifiedIff(env.lib, proof, HeaderOf(env, proof).value.jwk.value);
    }
  }

  /** An attestation of this client and its public key: signed by a trusted attester whose key id does not
      contradict the header's, not expired for more than a minute, good from a minute on at the latest. */
  ghost predicate Attests(env: Env, attestation: string, trusted: seq<Attester>, client: AttestedClient, now: int) {
    && HeaderOf(env, attestation).Some? && PayloadOf(env, attestation).Some?
    && var h, claims := HeaderOf(env, attestation).value, PayloadOf(env, attestation).value;
    && h.typ == Some("oauth-client-attestation+jwt") && h.alg == "ES256"
    && (exists i :: 0 <= i < |trusted| && Vouches(env, attestation, h.kid, trusted[i]))
    && claims.GetStr("iss").Some? && claims.GetStr("sub") == Some(client.clientId) && client.clientId != ""
    && AtLeast(claims, "exp", Timestamp(now) - 60, true) && AtMost(claims, "nbf", Timestamp(now) + 60)
    && claims.Get("cnf").Some? && claims.Get("cnf").value.Get("jwk").Some?
    && JwkFromJson(claims.Get("cnf").value.Get("jwk").value) == Some(client.instanceKey)
    && client.instanceKey.d == None
  }

  predicate Vouches(env: Env, attestation: string, kid: Option<string>, attester: Attester) {
    (kid.None? || attester.kid.None? || attester.kid == kid) && SignedUnder(env.lib, attestation, attester.jwk)
  }

  /** The checks on an attestation pass iff it is one, and then they give its client and key. */
  lemma AttestationIff(env: Env, attestation: string, trusted: seq<Attester>, now: int, client: AttestedClient)
    ensures CheckAttestation(env, attestation, trusted, now) == Some(client) <==>
            Attests(env, attestation, trusted, client, now)
  {
    hide DecodeCompact, SignedUnder, VerifyWithPublicJwk, Timestamp, JwkFromJson;
    if HeaderOf(env, attestation).Some? {
      TrustedIff(env, attestation, HeaderOf(env, attestation).value.kid, trusted);
    }
  }

  lemma TrustedIff(env: Env, attestation: string, kid: Option<string>, trusted: seq<Attester>)
    ensures SignedByTrusted(env, attestation, kid, trusted) <==>
            exists i :: 0 <= i < |trusted| && Vouches(env, attestation, kid, trusted[i])
  {
    hide SignedUnder, VerifyWithPublicJwk;
    forall i | 0 <= i < |trusted|
      ensures VerifyWithPublicJwk(env.lib, attestation, trusted[i].jwk).Ok?
              <==> SignedUnder(env.lib, attestation, trusted[i].jwk)
    {
      VerifiedIff(env.lib, attestation, trusted[i].jwk);
    }
    if i :| 0 <= i < |trusted| && Vouches(env, attestation, kid, trusted[i]) {
      assert VerifyWithPublicJwk(env.lib, attestation, trusted[i].jwk).Ok?;
    }
  }

  /** The text names the server, whatever slashes either ends with. */
  predicate NamesServer(j: Json, server: string) {
    j.Str? && TrimEndChar(j.s, '/') == TrimEndChar(server, '/')
  }

  /** A proof that the caller holds the attested key: signed by it, for this server, naming no other
      client, between 300 seconds ago and 60 seconds ahead, and in its own window if it gives one. */
  ghost predicate Possesses(env: Env, pop: string, client: AttestedClient, server: string, now: int, shown: Shown) {
    && HeaderOf(env, pop).Some? && PayloadOf(env, pop).Some? && SignedUnder(env.lib, pop, client.instanceKey)
    && var claims := PayloadOf(env, pop).value;
    && HeaderOf(env, pop).value.typ == Some("oauth-client-attestation-pop+jwt")
    && (claims.GetStr("iss") == None || claims.GetStr("iss") == Some(client.clientId))
    && claims.Get("aud").Some?
    && (|| NamesServer(claims.Get("aud").value, server)
        || (claims.Get("aud").value.Arr? && exists j :: j in claims.Get("aud").value.items && NamesServer(j, server)))
    && claims.GetInt("iat") == Some(shown.iat) && Timestamp(now) - 300 <= shown.iat <= Timestamp(now) + 60
    && AtLeast(claims, "exp", Timestamp(now) - 60, false) && AtMost(claims, "nbf", Timestamp(now) + 60)
    && claims.GetStr("jti").Some?
    && shown.key == "attestation-pop:" + client.clientId + ":" + claims.GetStr("jti").value
    && shown.who == client.clientId
  }

  /** The checks on a proof of possession pass iff it is one, and then it shows its identifier and time. */
  lemma PossessionIff(env: Env, pop: string, client: AttestedClient, server: string, now: int, shown: Shown)
    ensures CheckPop(env, pop, client, server, now) == Some(shown) <==>
            Possesses(env, pop, client, server, now, shown)
  {
    hide DecodeCompact, SignedUnder, VerifyWithPublicJwk, Timestamp, TrimEndChar;
    VerifiedIff(env.lib, pop, client.instanceKey);
    if PayloadOf(env, pop).Some? {
      ServerNamedIff(PayloadOf(env, pop).value.Get("aud"), server);
    }
  }

  lemma ServerNamedIff(aud: Option<Json>, server: string)
    ensures NamesIssuer(aud, server) <==>
            && aud.Some?
            && (|| NamesServer(aud.value, server)
                || (aud.value.Arr? && exists j :: j in aud.value.items && NamesServer(j, server)))
  {
    hide TrimEndChar;
    if aud.Some? && aud.value.Arr? {
      if j :| j in aud.value.items && NamesServer(j, server) {
        var i :| 0 <= i < |aud.value.items| && aud.value.items[i] == j;
      }
      if i :| 0 <= i < |aud.value.items| && aud.value.items[i].Str? && SameIssuer(aud.value.items[i].s, server) {
        assert NamesServer(aud.value.items[i], server);
      }
    }
  }

  // ---- Exactly when a proof passes ---------------------------------------------------------------------

  function TextOf(p: Presented): string {
    match p case Dpop(proof, _, _) => proof case Attestation(_, pop, _) => pop
  }

  /** The `jti` a proof carries. */
  function JtiOf(v: Verifier, p: Presented): string {
    match PayloadOf(v.env, TextOf(p))
    case None => ""
    case Some(claims) => if claims.GetStr("jti").Some? then claims.GetStr("jti").value else ""
  }

  /** Two proofs of one kind with one `jti`; proofs of possession also have to be for one client. Client and
      `jti` are compared as one text, with a colon between them. */
  predicate SameUse(v: Verifier, p: Presented, q: Presented) {
    && Show(v, p).Some? && Show(v, q).Some?
    && ((p.Dpop? && q.Dpop? && JtiOf(v, p) == JtiOf(v, q))
        || (p.Attestation? && q.Attestation?
            && Show(v, p).value.who + ":" + JtiOf(v, p) == Show(v, q).value.who + ":" + JtiOf(v, q)))
  }

  lemma KeyShown(v: Verifier, p: Presented)
    requires Show(v, p).Some?
    ensures Show(v, p).value.key == if p.Dpop? then "dpop:" + JtiOf(v, p)
                                    else "attestation-pop:" + Show(v, p).value.who + ":" + JtiOf(v, p)
  {
    hide CheckDpop, CheckAttestation, CheckPop, DpopProof, Possesses, PayloadOf;
    match p
    case Dpop(proof, ctx, at) =>
      DpopIff(v.env, proof, ctx, at, Show(v, p).value);
      DpopProofKey(v.env, proof, ctx, at, Show(v, p).value);
    case Attestation(attestation, pop, at) =>
      var client := CheckAttestation(v.env, attestation, v.trusted, at).value;
      PossessionIff(v.env, pop, client, v.audience, at, Show(v, p).value);
      PopProofKey(v.env, pop, client, v.audience, at, Show(v, p).value);
  }

  lemma DpopProofKey(env: Env, proof: string, ctx: DpopContext, now: int, shown: Shown)
    requires DpopProof(env, proof, ctx, now, shown)
    ensures PayloadOf(env, proof).Some? && PayloadOf(env, proof).value.GetStr("jti").Some?
    ensures shown.key == "dpop:" + PayloadOf(env, proof).value.GetStr("jti").value
  {
    hide HeaderOf, PayloadOf, SignedUnder;
  }

  lemma PopProofKey(env: Env, pop: string, client: AttestedClient, server: string, now: int, shown: Shown)
    requires Possesses(env, pop, client, server, now, shown)
    ensures PayloadOf(env, pop).Some? && PayloadOf(env, pop).value.GetStr("jti").Some? && shown.who == client.clientId
    ensures shown.key == "attestation-pop:" + shown.who + ":" + PayloadOf(env, pop).value.GetStr("jti").value
  {
    hide HeaderOf, PayloadOf, SignedUnder;
  }

  lemma SameKeyIff(v: Verifier, p: Presented, q: Presented)
    requires Show(v, p).Some? && Show(v, q).Some?
    ensures Show(v, p).value.key == Show(v, q).value.key <==> SameUse(v, p, q)
  {
    hide Show, JtiOf;
    KeyShown(v, p);
    KeyShown(v, q);
    var a, b := Show(v, p).value.who + ":" + JtiOf(v, p), Show(v, q).value.who + ":" + JtiOf(v, q);
    KeysKeepText("dpop:", JtiOf(v, p), JtiOf(v, q));
    KeysKeepText("attestation-pop:", a, b);
    assert "attestation-pop:" + Show(v, p).value.who + ":" + JtiOf(v, p) == "attestation-pop:" + a;
    assert "attestation-pop:" + Show(v, q).value.who + ":" + JtiOf(v, q) == "attestation-pop:" + b;
    KeysDoNotCross(JtiOf(v, p), Show(v, q).value.who, JtiOf(v, q));
    KeysDoNotCross(JtiOf(v, q), Show(v, p).value.who, JtiOf(v, p));
  }

  lemma KeysKeepText(prefix: string, a: string, b: string)
    ensures prefix + a == prefix + b <==> a == b
  {
    assert (prefix + a)[|prefix|..] == a && (prefix + b)[|prefix|..] == b;
  }

  /** In every run a proof passes iff its checks do and no proof of the same use passed in the 360 seconds
      before: pruning the cache, other identifiers and the other kind of proof change nothing. */
  lemma PassesIff(v: Verifier, ps: seq<Presented>, k: nat)
    requires InOrder(ps) && k < |ps|
    ensures Passed(v, ps, k) <==>
            && Show(v, ps[k]).Some?
            && forall j :: 0 <= j < k && Passed(v, ps, j) && SameUse(v, ps[j], ps[k]) ==>
                 ps[j].at + 360_000 <= ps[k].at
  {
    hide Show, SameUse, Accepted;
    var rs := Recordings(v, ps);
    if Show(v, ps[k]).Some? {
      CacheIsLog(rs, k);
      forall j | 0 <= j < k && Passed(v, ps, j)
        ensures Holds(rs, j, rs[k].key.value, rs[k].now) <==>
                SameUse(v, ps[j], ps[k]) && ps[k].at < ps[j].at + 360_000
      {
        PassedShows(v, ps, j);
        SameKeyIff(v, ps[j], ps[k]);
      }
    } else if Passed(v, ps, k) {
      PassedShows(v, ps, k);
    }
  }

  lemma PassedShows(v: Verifier, ps: seq<Presented>, k: nat)
    requires k < |ps| && Passed(v, ps, k)
    ensures Show(v, ps[k]).Some?
  {
    hide Show;
  }

  /** Clients whose names have no colon never share a use. */
  lemma UsesAreOwn(v: Verifier, p: Presented, q: Presented)
    requires p.Attestation? && q.Attestation? && SameUse(v, p, q)
    requires ':' !in Show(v, p).value.who && ':' !in Show(v, q).value.who
    ensures Show(v, p).value.who == Show(v, q).value.who && JtiOf(v, p) == JtiOf(v, q)
  {
    hide Show, JtiOf;
    var a, b := Show(v, p).value.who, Show(v, q).value.who;
    SplitOnceAt(a, ':', JtiOf(v, p));
    SplitOnceAt(b, ':', JtiOf(v, q));
  }
}
