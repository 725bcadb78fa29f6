/** The issuer's in-memory state: seven maps, each updated under its own lock. Times are in milliseconds. */
module IssuerStore {
  import opened Wrappers

  const SECOND: int := 1000

  datatype Session = Session(
    requestUri: string, authorizationCode: Option<string>, codeChallenge: string, clientId: string,
    redirectUri: string, configIds: seq<string>, viaDetails: bool, createdAt: int,
    codeIssuedAt: Option<int>, dpopJkt: Option<string>, consumed: bool)

  /** What an access token may obtain; `identifiers` maps a credential identifier to its configuration. */
  datatype Grant = Grant(configIds: seq<string>, identifiers: map<string, string>, dpopJkt: Option<string>)

  datatype PreAuthEntry = PreAuthEntry(txCode: Option<string>, configIds: seq<string>, consumed: bool)

  datatype TokenEntry = TokenEntry(grant: Grant, expiresAt: int)

  datatype NonceEntry = NonceEntry(createdAt: int, expiresIn: nat)

  /** Whole seconds, truncated toward zero as the clock library does. */
  function NumSeconds(ms: int): int {
    if ms >= 0 then ms / SECOND else -((-ms) / SECOND)
  }

  /** The cast of a signed 64-bit number to an unsigned one. */
  function AsUnsigned(n: int): int {
    if n < 0 then n + 0x1_0000_0000_0000_0000 else n
  }

  /** The value of the seven maps, and what each store call does to it. */
  datatype Store = Store(
    sessions: map<string, Session>, codeToUri: map<string, string>, preAuthCodes: map<string, PreAuthEntry>,
    accessTokens: map<string, TokenEntry>, tokensByCode: map<string, string>,
    seenJtis: map<string, int>, nonces: map<string, NonceEntry>)
  {
    function StoreSession(uri: string, session: Session): Store {
      this.(sessions := sessions[uri := session])
    }

    function SetCode(uri: string, code: string, now: int): Store {
      if uri in sessions then
        this.(sessions := sessions[uri := sessions[uri].(authorizationCode := Some(code), codeIssuedAt := Some(now))],
              codeToUri := codeToUri[code := uri])
      else this
    }

    function SessionByCode(code: string): Option<Session> {
      if code in codeToUri && codeToUri[code] in sessions then Some(sessions[codeToUri[code]]) else None
    }

    function ConsumeCode(code: string): Store {
      if code in codeToUri && codeToUri[code] in sessions then
        this.(sessions := sessions[codeToUri[code] := sessions[codeToUri[code]].(consumed := true)])
      else this
    }

    function RecordToken(code: string, token: string): Store {
      this.(tokensByCode := tokensByCode[code := token])
    }

    function RevokeTokens(code: string): Store {
      if code in tokensByCode then
        this.(tokensByCode := tokensByCode - {code}, accessTokens := accessTokens - {tokensByCode[code]})
      else this
    }

    function StorePreAuth(code: string, txCode: Option<string>, configIds: seq<string>): Store {
      this.(preAuthCodes := preAuthCodes[code := PreAuthEntry(txCode, configIds, false)])
    }

    function Redeemable(code: string, txCode: Option<string>): Option<seq<string>> {
      if code in preAuthCodes && !preAuthCodes[code].consumed && preAuthCodes[code].txCode == txCode
      then Some(preAuthCodes[code].configIds) else None
    }

    function RedeemPreAuth(code: string, txCode: Option<string>): Store {
      if Redeemable(code, txCode).Some? then
        this.(preAuthCodes := preAuthCodes[code := preAuthCodes[code].(consumed := true)])
      else this
    }

    function StoreToken(token: string, grant: Grant, expiresIn: nat, now: int): Store {
      this.(accessTokens := accessTokens[token := TokenEntry(grant, now + expiresIn * SECOND)])
    }

    function GrantAt(token: string, now: int): Option<Grant> {
      if token in accessTokens && now < accessTokens[token].expiresAt then Some(accessTokens[token].grant) else None
    }

    /** Looking up an expired token drops it. */
    function AfterGrantAt(token: string, now: int): Store {
      if token in accessTokens && GrantAt(token, now).None? then this.(accessTokens := accessTokens - {token}) else this
    }

    /** What is still remembered at `now`. */
    function Remembered(now: int): map<string, int> {
      map k | k in seenJtis && seenJtis[k] > now :: seenJtis[k]
    }

    function IsFresh(key: string, now: int): bool {
      key !in Remembered(now)
    }

    function RecordJti(key: string, ttl: nat, now: int): Store {
      this.(seenJtis := if IsFresh(key, now) then Remembered(now)[key := now + ttl * SECOND] else Remembered(now))
    }

    function StoreNonce(nonce: string, expiresIn: nat, now: int): Store {
      this.(nonces := nonces[nonce := NonceEntry(now, expiresIn)])
    }

    function NonceValid(nonce: string, now: int): bool {
      nonce in nonces && AsUnsigned(NumSeconds(now - nonces[nonce].createdAt)) <= nonces[nonce].expiresIn
    }

    function ConsumeNonce(nonce: string): Store {
      this.(nonces := nonces - {nonce})
    }
  }

  const EMPTY: Store := Store(map[], map[], map[], map[], map[], map[], map[])

  // ---- What the calls mean for each other ----------------------------------------------------------

  /** A pre-authorized code is redeemed with the transaction code it was stored with, and then never again. */
  lemma RedeemsOnce(store: Store, code: string, bound: Option<string>, ids: seq<string>, txCode: Option<string>,
                    other: Option<string>)
    ensures var stored := store.StorePreAuth(code, bound, ids);
            && stored.Redeemable(code, txCode) == (if txCode == bound then Some(ids) else None)
            && (txCode == bound ==> stored.RedeemPreAuth(code, txCode).Redeemable(code, other) == None)
            && (txCode != bound ==> stored.RedeemPreAuth(code, txCode) == stored)
  {
  }

  /** Storing and redeeming one offer leaves every other one as it is. */
  lemma OffersApart(store: Store, code: string, bound: Option<string>, ids: seq<string>, txCode: Option<string>,
                    another: string, itsTxCode: Option<string>)
    requires another != code
    ensures store.StorePreAuth(code, bound, ids).Redeemable(another, itsTxCode) == store.Redeemable(another, itsTxCode)
    ensures store.RedeemPreAuth(code, txCode).Redeemable(another, itsTxCode) == store.Redeemable(another, itsTxCode)
  {
  }

  /** A token grants what was stored, up to but not including its expiry. */
  lemma GrantLives(store: Store, token: string, grant: Grant, expiresIn: nat, stored: int, now: int)
    ensures store.StoreToken(token, grant, expiresIn, stored).GrantAt(token, now)
         == if now < stored + expiresIn * SECOND then Some(grant) else None
  {
  }

  /** Storing one token leaves the others' grants as they are, and looking a token up, found or expired,
      leaves what every token grants then and later as it is. */
  lemma GrantsApart(store: Store, token: string, grant: Grant, expiresIn: nat, now: int, other: string, later: int)
    requires now <= later
    ensures other != token ==>
              store.StoreToken(token, grant, expiresIn, now).GrantAt(other, later) == store.GrantAt(other, later)
    ensures store.AfterGrantAt(token, now).GrantAt(other, later) == store.GrantAt(other, later)
    ensures store.GrantAt(token, now).Some? ==> store.AfterGrantAt(token, now) == store
  {
  }

  /** The code of one session, and its consumption, leave the sessions behind other codes as they are. */
  lemma CodesApart(store: Store, uri: string, code: string, now: int, other: string)
    requires other != code && !(other in store.codeToUri && store.codeToUri[other] == uri)
    ensures store.SetCode(uri, code, now).SessionByCode(other) == store.SessionByCode(other)
    ensures uri in store.sessions ==>
              store.SetCode(uri, code, now).ConsumeCode(code).SessionByCode(other) == store.SessionByCode(other)
  {
  }

  /** A nonce is valid for its lifetime and the rest of the last second, and, should the clock go back, not
      a full second before it was stored; once consumed it is valid at no time. */
  lemma NonceLives(store: Store, nonce: string, expiresIn: nat, stored: int, now: int, later: int)
    requires expiresIn < 0x8000_0000_0000_0000 && stored - now <= 0x8000_0000_0000_0000 * 1000
    ensures store.StoreNonce(nonce, expiresIn, stored).NonceValid(nonce, now)
            <==> stored - 1000 < now < stored + (expiresIn + 1) * 1000
    ensures !store.ConsumeNonce(nonce).NonceValid(nonce, later)
  {
  }

  /** Handing out and consuming one nonce leaves every other one as it is. */
  lemma NoncesApart(store: Store, nonce: string, expiresIn: nat, stored: int, other: string, now: int)
    requires other != nonce
    ensures store.StoreNonce(nonce, expiresIn, stored).NonceValid(other, now) == store.NonceValid(other, now)
    ensures store.ConsumeNonce(nonce).NonceValid(other, now) == store.NonceValid(other, now)
  {
  }

  /** Revoking a code's token takes its grant away at every time, and no other token's. */
  lemma RevokedGrantsNothing(store: Store, code: string, token: string, other: string, at: int)
    requires other != token
    ensures store.RecordToken(code, token).RevokeTokens(code).GrantAt(token, at) == None
    ensures store.RecordToken(code, token).RevokeTokens(code).GrantAt(other, at) == store.GrantAt(other, at)
  {
  }

  /** The store object. `now` is the clock reading a call makes. */
  class InMemoryIssuerState {
    var sessions: map<string, Session>
    var codeToUri: map<string, string>
    var preAuthCodes: map<string, PreAuthEntry>
    var accessTokens: map<string, TokenEntry>
    var tokensByCode: map<string, string>
    var seenJtis: map<string, int>
    var nonces: map<string, NonceEntry>

    function Contents(): Store
      reads this
    {
      Store(sessions, codeToUri, preAuthCodes, accessTokens, tokensByCode, seenJtis, nonces)
    }

    constructor ()
      ensures Contents() == EMPTY
    {
      sessions, codeToUri, preAuthCodes, accessTokens := map[], map[], map[], map[];
      tokensByCode, seenJtis, nonces := map[], map[], map[];
    }

    method StoreAuthorizationSession(uri: string, session: Session)
      modifies this`sessions
      ensures Contents() == old(Contents()).StoreSession(uri, session)
    {
      sessions := sessions[uri := session];
    }

    method GetAuthorizationSession(uri: string) returns (session: Option<Session>)
      ensures session == if uri in sessions then Some(sessions[uri]) else None
    {
      session := None;
      if uri in sessions {
        session := Some(sessions[uri]);
      }
    }

    method SetAuthorizationCode(uri: string, code: string, now: int) returns (found: bool)
      modifies this`sessions, this`codeToUri
      ensures found == (uri in old(sessions))
      ensures Contents() == old(Contents()).SetCode(uri, code, now)
    {
      found := uri in sessions;
      if found {
        sessions := sessions[uri := sessions[uri].(authorizationCode := Some(code), codeIssuedAt := Some(now))];
        codeToUri := codeToUri[code := uri];
      }
    }

    method GetSessionByCode(code: string) returns (session: Option<Session>)
      ensures session == Contents().SessionByCode(code)
    {
      session := None;
      if code in codeToUri {
        var uri := codeToUri[code];
        if uri in sessions {
          session := Some(sessions[uri]);
        }
      }
    }

    method ConsumeAuthorizationCode(code: string)
      modifies this`sessions
      ensures Contents() == old(Contents()).ConsumeCode(code)
    {
      if code in codeToUri {
        var uri := codeToUri[code];
        if uri in sessions {
          sessions := sessions[uri := sessions[uri].(consumed := true)];
        }
      }
    }

    method RecordTokenForCode(code: string, token: string)
      modifies this`tokensByCode
      ensures Contents() == old(Contents()).RecordToken(code, token)
    {
      tokensByCode := tokensByCode[code := token];
    }

    method RevokeTokensForCode(code: string)
      modifies this`tokensByCode, this`accessTokens
      ensures Contents() == old(Contents()).RevokeTokens(code)
    {
      if code in tokensByCode {
        var token := tokensByCode[code];
        tokensByCode := tokensByCode - {code};
        accessTokens := accessTokens - {token};
      }
    }

    method StorePreAuthorizedCode(code: string, txCode: Option<string>, configIds: seq<string>)
      modifies this`preAuthCodes
      ensures Contents() == old(Contents()).StorePreAuth(code, txCode, configIds)
    {
      preAuthCodes := preAuthCodes[code := PreAuthEntry(txCode, configIds, false)];
    }

    method RedeemPreAuthorizedCode(code: string, txCode: Option<string>) returns (configIds: Option<seq<string>>)
      modifies this`preAuthCodes
      ensures configIds == old(Contents()).Redeemable(code, txCode)
      ensures Contents() == old(Contents()).RedeemPreAuth(code, txCode)
    {
      if code !in preAuthCodes {
        return None;
      }
      var entry := preAuthCodes[code];
      if entry.consumed || entry.txCode != txCode {
        return None;
      }
      preAuthCodes := preAuthCodes[code := entry.(consumed := true)];
      configIds := Some(entry.configIds);
    }

    method StoreAccessToken(token: string, grant: Grant, expiresIn: nat, now: int)
      modifies this`accessTokens
      ensures Contents() == old(Contents()).StoreToken(token, grant, expiresIn, now)
    {
      accessTokens := accessTokens[token := TokenEntry(grant, now + expiresIn * SECOND)];
    }

    method GetAccessGrant(token: string, now: int) returns (grant: Option<Grant>)
      modifies this`accessTokens
      ensures grant == old(Contents()).GrantAt(token, now)
      ensures Contents() == old(Contents()).AfterGrantAt(token, now)
    {
      grant := None;
      if token in accessTokens {
        var entry := accessTokens[token];
        if now < entry.expiresAt {
          grant := Some(entry.grant);
        } else {
          accessTokens := accessTokens - {token};
        }
      }
    }

    method RecordJti(key: string, ttl: nat, now: int) returns (isNew: bool)
      modifies this`seenJtis
      ensures isNew == old(Contents()).IsFresh(key, now)
      ensures Contents() == old(Contents()).RecordJti(key, ttl, now)
    {
      seenJtis := map k | k in seenJtis && seenJtis[k] > now :: seenJtis[k];
      if key in seenJtis {
        return false;
      }
      seenJtis := seenJtis[key := now + ttl * SECOND];
      isNew := true;
    }

    method StoreCNonce(nonce: string, expiresIn: nat, now: int)
      modifies this`nonces
      ensures Contents() == old(Contents()).StoreNonce(nonce, expiresIn, now)
    {
      nonces := nonces[nonce := NonceEntry(now, expiresIn)];
    }

    method ConsumeCNonce(nonce: string, now: int) returns (valid: bool)
      modifies this`nonces
      ensures valid == old(Contents()).NonceValid(nonce, now)
      ensures Contents() == old(Contents()).ConsumeNonce(nonce)
    {
      valid := false;
      if nonce in nonces {
        var entry := nonces[nonce];
        valid := AsUnsigned(NumSeconds(now - entry.createdAt)) <= entry.expiresIn;
      }
      nonces := nonces - {nonce};
    }
  }
}
