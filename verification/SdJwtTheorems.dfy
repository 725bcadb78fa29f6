/** Selective disclosure is exact, and key binding fixes the presentation. */
module SdJwtTheorems {
  import opened Wrappers
  import opened Text
  import opened Base64
  import opened Jws
  import opened Credentials
  import opened SdJwt

  /** An issuance: everything `IssueSdJwtVc` was given. */
  datatype Issuance = Issuance(key: Jwk, kid: string, req: IssueRequest, salts: seq<seq<byte>>, at: int)

  /** The range of times a clock can show (chrono's own limits). */
  const MAX_TIME: int := 8_210_266_876_799

  /** Payload members the issuer writes itself. */
  const OWN: set<string> := {"iss", "iat", "exp", "nbf", "vct", "cnf", "status", "_sd", "_sd_alg"}

  ghost predicate Sound(lib: Library, i: Issuance) {
    && Ideal(lib) && AlgorithmForJwk(i.key).Some?
    && |i.salts| == |i.req.disclosable| && DistinctNames(i.req.disclosable)
    && i.req.plain.Keys !! OWN
    && -MAX_TIME <= i.at <= MAX_TIME
  }

  function DisclosuresOf(lib: Library, i: Issuance): seq<Disclosure>
    requires |i.salts| == |i.req.disclosable|
  {
    NewDisclosures(lib, i.req.disclosable, i.salts)
  }

  function PayloadOf(lib: Library, i: Issuance): Json
    requires |i.salts| == |i.req.disclosable|
  {
    Payload(i.req, Hashes(DisclosuresOf(lib, i)), i.at)
  }

  function JwtOf(lib: Library, i: Issuance): string
    requires |i.salts| == |i.req.disclosable|
  {
    IssuerJwt(lib, i.key, i.kid, i.req, Hashes(DisclosuresOf(lib, i)), i.at)
  }

  // ---- The issuer JWT reads back ----------------------------------------------------

  lemma JwtReads(lib: Library, i: Issuance)
    requires Sound(lib, i)
    ensures Carried(JwtOf(lib, i))
    ensures var decoded := VerifyCompact(lib, JwtOf(lib, i), i.key);
            decoded.Ok? && lib.parseJson(decoded.value.payload) == Some(PayloadOf(lib, i))
  {
    hide DecodeCompact, SignCompact, Payload, DistinctNames, Count;
    var header := BuildHeader(i.key, i.kid, "dc+sd-jwt", i.req.x5c);
    DecodeSigned(lib, i.key, header, PayloadOf(lib, i));
    var input := SigningInput(lib, header, PayloadOf(lib, i));
    SignedByKey(lib, i.key, header, PayloadOf(lib, i));
  }

  /** A JWS verifies under the key that signed it. */
  lemma SignedByKey(lib: Library, key: Jwk, header: JwsHeader, payload: Json)
    requires Ideal(lib) && AlgorithmForJwk(key).Some?
    ensures VerifyCompact(lib, SignCompact(lib, key, header, payload), key)
         == DecodeCompact(lib, SignCompact(lib, key, header, payload))
  {
    hide DecodeCompact, SignCompact, Count;
    DecodeSigned(lib, key, header, payload);
    assert lib.verify(key, SigningInput(lib, header, payload), lib.sign(key, SigningInput(lib, header, payload)));
  }

  lemma PlainKeepsOwn(base: map<string, Json>, plain: map<string, Json>, name: string)
    requires plain.Keys !! OWN && name in OWN
    ensures Obj(base + plain).Get(name) == Obj(base).Get(name)
  {
  }

  lemma PayloadReads(lib: Library, i: Issuance)
    requires Sound(lib, i)
    ensures SdArray(PayloadOf(lib, i)) == Hashes(DisclosuresOf(lib, i))
    ensures forall now :: InWindow(PayloadOf(lib, i), now)
                     <==> StartOfDay(i.at) <= now < StartOfDay(i.at) + DAY_SECS * 365
  {
    hide NewDisclosures, DistinctNames, Ideal, Texts, Hashes, BaseClaims;
    var hashes := Hashes(DisclosuresOf(lib, i));
    var base := BaseClaims(i.req, hashes, StartOfDay(i.at));
    PlainKeepsOwn(base, i.req.plain, "_sd");
    PlainKeepsOwn(base, i.req.plain, "exp");
    PlainKeepsOwn(base, i.req.plain, "nbf");
    BaseReads(i.req, hashes, StartOfDay(i.at));
  }

  lemma BaseReads(req: IssueRequest, hashes: seq<string>, issued: int)
    ensures var base := Obj(BaseClaims(req, hashes, issued));
            && SdArray(base) == hashes
            && base.Get("exp") == Some(Num(issued + DAY_SECS * 365))
            && base.Get("nbf") == Some(Num(issued))
  {
    hide Texts, ReadTexts;
    TextsRoundTrip(hashes);
    var own := map["iss" := Str(req.issuer), "iat" := Num(issued), "exp" := Num(issued + DAY_SECS * 365),
                   "nbf" := Num(issued), "vct" := Str(req.vct), "_sd_alg" := Str("sha-256")];
    var sd := if hashes == [] then map[] else map["_sd" := Arr(Texts(hashes))];
    var cnf := if req.cnf.Some? then map["cnf" := req.cnf.value] else map[];
    var status := if req.status.Some? then map["status" := req.status.value] else map[];
    forall name | name in {"_sd", "exp", "nbf"} ensures Obj(own + sd + cnf + status).Get(name)
      == Obj(own + sd).Get(name) {
      AddedApart(name);
      GetPast(own + sd + cnf, status, name);
      GetPast(own + sd, cnf, name);
    }
    OwnReads(req, hashes, issued);
  }

  /** The header of an issued credential: the issuer key's own algorithm, the type, the key id and the chain. */
  lemma IssuedHeader(lib: Library, i: Issuance)
    requires Sound(lib, i)
    ensures DecodeCompact(lib, JwtOf(lib, i)).Ok?
    ensures var h := DecodeCompact(lib, JwtOf(lib, i)).value.header;
            && AlgorithmForJwk(i.key).Some? && h.alg == AlgorithmForJwk(i.key).value.Name()
            && h.typ == Some("dc+sd-jwt") && h.kid == Some(i.kid) && h.jwk == None && h.x5c == i.req.x5c
  {
    hide DecodeCompact, SignCompact, Payload, DistinctNames, Count;
    DecodeSigned(lib, i.key, BuildHeader(i.key, i.kid, "dc+sd-jwt", i.req.x5c), PayloadOf(lib, i));
  }

  /** The payload of an issued credential, member by member: the issuer and type asked for, signed at
      the start of the day and good for 365 days, with the holder's key and the status asked for, and
      every plain claim under its name. */
  lemma IssuedPayload(lib: Library, i: Issuance)
    requires Sound(lib, i)
    ensures var p := PayloadOf(lib, i);
            && p.GetStr("iss") == Some(i.req.issuer) && p.GetStr("vct") == Some(i.req.vct)
            && p.GetInt("iat").Some? && p.GetInt("nbf") == p.GetInt("iat")
            && var day := p.GetInt("iat").value;
            && day % 86_400 == 0 && day <= i.at < day + 86_400 && p.GetInt("exp") == Some(day + 365 * 86_400)
            && p.GetStr("_sd_alg") == Some("sha-256")
            && p.Get("cnf") == i.req.cnf && p.Get("status") == i.req.status
            && forall name :: name in i.req.plain ==> p.Get(name) == Some(i.req.plain[name])
  {
    hide NewDisclosures, DistinctNames, Ideal, Texts, Hashes, BaseClaims;
    var hashes := Hashes(DisclosuresOf(lib, i));
    var base := BaseClaims(i.req, hashes, StartOfDay(i.at));
    BaseMembers(i.req, hashes, StartOfDay(i.at));
    forall name | name in OWN ensures PayloadOf(lib, i).Get(name) == Obj(base).Get(name) {
      PlainKeepsOwn(base, i.req.plain, name);
    }
  }

  lemma BaseMembers(req: IssueRequest, hashes: seq<string>, issued: int)
    ensures var base := Obj(BaseClaims(req, hashes, issued));
            && base.Get("iss") == Some(Str(req.issuer)) && base.Get("vct") == Some(Str(req.vct))
            && base.Get("iat") == Some(Num(issued)) && base.Get("nbf") == Some(Num(issued))
            && base.Get("exp") == Some(Num(issued + DAY_SECS * 365)) && base.Get("_sd_alg") == Some(Str("sha-256"))
            && base.Get("cnf") == req.cnf && base.Get("status") == req.status
  {
    hide Json.Get, Texts;
    var own := map["iss" := Str(req.issuer), "iat" := Num(issued), "exp" := Num(issued + DAY_SECS * 365),
                   "nbf" := Num(issued), "vct" := Str(req.vct), "_sd_alg" := Str("sha-256")];
    var sd := if hashes == [] then map[] else map["_sd" := Arr(Texts(hashes))];
    var cnf := if req.cnf.Some? then map["cnf" := req.cnf.value] else map[];
    var status := if req.status.Some? then map["status" := req.status.value] else map[];
    OwnNamesDiffer();
    OwnMembers(req, issued);
    forall name | name in {"iss", "vct", "iat", "nbf", "exp", "_sd_alg"}
      ensures Obj(own + sd + cnf + status).Get(name) == Obj(own).Get(name)
    {
      GetPast(own + sd + cnf, status, name);
      GetPast(own + sd, cnf, name);
      GetPast(own, sd, name);
    }
    GetPast(own + sd + cnf, status, "cnf");
    OneMember(own + sd, "cnf", req.cnf);
    OneMember(own + sd + cnf, "status", req.status);
  }

  lemma OneMember(fields: map<string, Json>, name: string, value: Option<Json>)
    requires name !in fields
    ensures Obj(fields + if value.Some? then map[name := value.value] else map[]).Get(name) == value
  {
  }

  lemma OwnMembers(req: IssueRequest, issued: int)
    ensures var own := Obj(map["iss" := Str(req.issuer), "iat" := Num(issued), "exp" := Num(issued + DAY_SECS * 365),
                               "nbf" := Num(issued), "vct" := Str(req.vct), "_sd_alg" := Str("sha-256")]);
            && own.Get("iss") == Some(Str(req.issuer)) && own.Get("vct") == Some(Str(req.vct))
            && own.Get("iat") == Some(Num(issued)) && own.Get("nbf") == Some(Num(issued))
            && own.Get("exp") == Some(Num(issued + DAY_SECS * 365)) && own.Get("_sd_alg") == Some(Str("sha-256"))
  {
    OwnNamesDiffer();
  }

  lemma OwnNamesDiffer()
    ensures "iss" != "iat" && "iss" != "_sd_alg" && "vct" != "_sd_alg" && "iat" != "_sd_alg" && "_sd" != "_sd_alg"
    ensures "status" != "_sd_alg" && |"status"| == 6 && |"_sd_alg"| == 7
    ensures "_sd"[0] == '_' && "exp"[0] == 'e' && "nbf"[0] == 'n' && "cnf"[0] == 'c' && "vct"[0] == 'v'
  {
    assert "iss"[1] == 's' && "iat"[1] == 'a' && |"iss"| == |"vct"| == |"iat"| == |"_sd"| == 3;
  }

  lemma GetPast(fields: map<string, Json>, more: map<string, Json>, name: string)
    requires name !in more
    ensures Obj(fields + more).Get(name) == Obj(fields).Get(name)
  {
  }

  lemma AddedApart(name: string)
    requires name in {"_sd", "exp", "nbf"}
    ensures name != "cnf" && name != "status"
  {
    assert |"status"| == 6 && "_sd"[0] == '_' && "exp"[0] == 'e' && "nbf"[0] == 'n' && "cnf"[0] == 'c';
  }

  lemma OwnReads(req: IssueRequest, hashes: seq<string>, issued: int)
    ensures var own := map["iss" := Str(req.issuer), "iat" := Num(issued), "exp" := Num(issued + DAY_SECS * 365),
                           "nbf" := Num(issued), "vct" := Str(req.vct), "_sd_alg" := Str("sha-256")];
            var base := Obj(own + if hashes == [] then map[] else map["_sd" := Arr(Texts(hashes))]);
            && base.Get("exp") == Some(Num(issued + DAY_SECS * 365)) && base.Get("nbf") == Some(Num(issued))
            && base.Get("_sd") == if hashes == [] then None else Some(Arr(Texts(hashes)))
  {
    hide Texts;
    assert |"_sd_alg"| == 7 && |"_sd"| == 3;
    assert "_sd"[0] == '_' && "exp"[0] == 'e' && "nbf"[0] == 'n' && "vct"[0] == 'v' && "iss"[0] == "iat"[0] == 'i';
  }

  lemma BaseIsOwn(req: IssueRequest, hashes: seq<string>, issued: int)
    ensures BaseClaims(req, hashes, issued).Keys <= OWN
  {
  }

  lemma OwnInvisible(name: string)
    requires name in OWN
    ensures !Visible(name)
  {
  }

  lemma PayloadShows(lib: Library, i: Issuance)
    requires Sound(lib, i)
    ensures VisibleClaims(PayloadOf(lib, i)) == VisibleClaims(Obj(i.req.plain))
  {
    hide NewDisclosures, DistinctNames, Ideal, BaseClaims, Visible, OWN, Hashes;
    var hashes := Hashes(DisclosuresOf(lib, i));
    var base := BaseClaims(i.req, hashes, StartOfDay(i.at));
    BaseIsOwn(i.req, hashes, StartOfDay(i.at));
    forall name | name in base ensures !Visible(name) {
      OwnInvisible(name);
    }
  }

  // ---- Disclosures ------------------------------------------------------------------

  lemma EncodedReads(lib: Library, name: string, value: Json, salt: seq<byte>)
    requires Ideal(lib)
    ensures var d := NewDisclosure(lib, name, value, salt);
            FromEncoded(lib, d.encoded) == Ok(d)
  {
    hide Decode, Encode;
    var salted := Encode(UrlUnpadded, salt);
    DecodeEncode(UrlUnpadded, lib.jsonText(Arr([Str(salted), Str(name), value])));
  }

  /** What disclosure `k` of an issued credential says to whoever decodes it: the salt drawn for it, the
      claim's name and its value, in that order; and the digest signed for it is that of its text. */
  lemma DisclosureReads(lib: Library, i: Issuance, k: nat)
    requires Sound(lib, i) && k < |i.req.disclosable|
    ensures var text := EncodedForms(DisclosuresOf(lib, i))[k];
            && Decode(UrlUnpadded, text).Some?
            && lib.parseJson(Decode(UrlUnpadded, text).value)
               == Some(Arr([Str(Encode(UrlUnpadded, i.salts[k])), Str(i.req.disclosable[k].0), i.req.disclosable[k].1]))
            && Hashes(DisclosuresOf(lib, i))[k] == Encode(UrlUnpadded, lib.sha256(text))
            && FromEncoded(lib, text).Ok?
            && var d := FromEncoded(lib, text).value;
            && Decode(UrlUnpadded, d.salt) == Some(i.salts[k])
            && (d.claimName, d.claimValue) == i.req.disclosable[k]
  {
    hide Encode, Decode, DistinctNames, OWN;
    var (name, value) := i.req.disclosable[k];
    EncodedReads(lib, name, value, i.salts[k]);
    DecodeEncode(UrlUnpadded, i.salts[k]);
    DecodeEncode(UrlUnpadded, lib.jsonText(Arr([Str(Encode(UrlUnpadded, i.salts[k])), Str(name), value])));
  }

  /** A digest is listed exactly when the very text it was computed from was issued. */
  lemma ListedExactlyIssued(lib: Library, ds: seq<Disclosure>, text: string)
    requires Ideal(lib) && forall i :: 0 <= i < |ds| ==> ds[i].hash == HashText(lib, ds[i].encoded)
    ensures HashText(lib, text) in Hashes(ds) <==> text in EncodedForms(ds)
  {
    if HashText(lib, text) in Hashes(ds) {
      var i :| 0 <= i < |ds| && Hashes(ds)[i] == HashText(lib, text);
      HashInjective(lib, ds[i].encoded, text);
      assert EncodedForms(ds)[i] == text;
    }
    if text in EncodedForms(ds) {
      var i :| 0 <= i < |ds| && EncodedForms(ds)[i] == text;
      assert Hashes(ds)[i] == HashText(lib, text);
    }
  }

  /** Distinct claim names alone give distinct texts and distinct digests, whatever the salts. */
  lemma DistinctDigests(lib: Library, i: Issuance, j: nat, k: nat)
    requires Sound(lib, i) && j < k < |i.req.disclosable|
    ensures var ds := DisclosuresOf(lib, i);
            ds[j].encoded != ds[k].encoded && ds[j].hash != ds[k].hash
  {
    hide Encode, Decode;
    var ds := DisclosuresOf(lib, i);
    var claims := i.req.disclosable;
    EncodedReads(lib, claims[j].0, claims[j].1, i.salts[j]);
    EncodedReads(lib, claims[k].0, claims[k].1, i.salts[k]);
    assert claims[j].0 != claims[k].0;
    if ds[j].hash == ds[k].hash {
      HashInjective(lib, ds[j].encoded, ds[k].encoded);
    }
  }

  ghost predicate NoRepeats(texts: seq<string>) {
    forall i, j :: 0 <= i < j < |texts| ==> texts[i] != texts[j]
  }

  ghost predicate AllIssued(ds: seq<Disclosure>, texts: seq<string>) {
    forall i :: 0 <= i < |texts| ==> texts[i] in EncodedForms(ds)
  }

  ghost predicate Unseen(lib: Library, texts: seq<string>, seen: set<string>) {
    forall i :: 0 <= i < |texts| ==> HashText(lib, texts[i]) !in seen
  }

  /** The claims whose disclosures are among `texts`. */
  ghost function Chosen(claims: seq<(string, Json)>, ds: seq<Disclosure>, texts: seq<string>): map<string, Json>
    requires |ds| == |claims| && DistinctNames(claims)
  {
    map i | 0 <= i < |claims| && ds[i].encoded in texts :: claims[i].0 := claims[i].1
  }

  lemma DiscloseIssued(lib: Library, i: Issuance, text: string, seen: set<string>)
    requires Sound(lib, i)
    ensures var ds := DisclosuresOf(lib, i);
            var r := Disclose(lib, Hashes(ds), text, seen);
            && (r.Ok? <==> text in EncodedForms(ds) && HashText(lib, text) !in seen)
            && (r.Ok? ==> exists k :: 0 <= k < |ds| && ds[k] == r.value && ds[k].encoded == text)
  {
    hide Encode, Decode, HashText, DistinctNames;
    var ds := DisclosuresOf(lib, i);
    ListedExactlyIssued(lib, ds, text);
    if text in EncodedForms(ds) {
      var k :| 0 <= k < |ds| && EncodedForms(ds)[k] == text;
      EncodedReads(lib, i.req.disclosable[k].0, i.req.disclosable[k].1, i.salts[k]);
    }
  }

  /** The disclosure loop accepts exactly the issued disclosures, each at most once,
      and collects exactly their claims. */
  lemma {:induction false} DiscloseAllExactly(lib: Library, i: Issuance, texts: seq<string>, seen: set<string>,
                                              claims: map<string, Json>)
    requires Sound(lib, i)
    ensures var ds := DisclosuresOf(lib, i);
            var r := DiscloseAll(lib, Hashes(ds), texts, seen, claims);
            && (r.Ok? <==> NoRepeats(texts) && AllIssued(ds, texts) && Unseen(lib, texts, seen))
            && (r.Ok? ==> r.value == claims + Chosen(i.req.disclosable, ds, texts))
  {
    hide Chosen, DistinctNames, HashText, OWN, Ideal, NewDisclosures, Disclose, NoRepeats, AllIssued, Unseen;
    var ds := DisclosuresOf(lib, i);
    if texts == [] {
      NothingChosen(lib, i, seen);
      assert claims + Chosen(i.req.disclosable, ds, texts) == claims;
    } else {
      DiscloseIssued(lib, i, texts[0], seen);
      var first := Disclose(lib, Hashes(ds), texts[0], seen);
      if first.Ok? {
        var d := first.value;
        DiscloseAllExactly(lib, i, texts[1..], seen + {d.hash}, claims[d.claimName := d.claimValue]);
        RestUnseen(lib, texts, seen);
        FirstAccepted(lib, ds, texts, seen);
        ChosenFirst(lib, i, texts, d, claims);
      }
      FirstRejected(lib, ds, texts, seen);
    }
  }

  lemma NothingChosen(lib: Library, i: Issuance, seen: set<string>)
    requires Sound(lib, i)
    ensures NoRepeats([]) && AllIssued(DisclosuresOf(lib, i), []) && Unseen(lib, [], seen)
    ensures Chosen(i.req.disclosable, DisclosuresOf(lib, i), []) == map[]
  {
  }

  lemma FirstAccepted(lib: Library, ds: seq<Disclosure>, texts: seq<string>, seen: set<string>)
    requires texts != [] && texts[0] in EncodedForms(ds) && HashText(lib, texts[0]) !in seen
    ensures AllIssued(ds, texts) <==> AllIssued(ds, texts[1..])
    ensures Unseen(lib, texts, seen) <==> Unseen(lib, texts[1..], seen)
  {
  }

  lemma FirstRejected(lib: Library, ds: seq<Disclosure>, texts: seq<string>, seen: set<string>)
    requires texts != []
    ensures AllIssued(ds, texts) && Unseen(lib, texts, seen) ==>
              texts[0] in EncodedForms(ds) && HashText(lib, texts[0]) !in seen
  {
  }

  /** The rest of a list avoids the first text exactly when the first is not repeated. */
  lemma RestUnseen(lib: Library, texts: seq<string>, seen: set<string>)
    requires Ideal(lib) && texts != []
    ensures Unseen(lib, texts[1..], seen + {HashText(lib, texts[0])}) && NoRepeats(texts[1..])
       <==> Unseen(lib, texts[1..], seen) && NoRepeats(texts)
  {
    hide HashText, Ideal;
    forall k | 0 <= k < |texts[1..]|
      ensures HashText(lib, texts[1..][k]) == HashText(lib, texts[0]) <==> texts[k + 1] == texts[0]
    {
      if HashText(lib, texts[1..][k]) == HashText(lib, texts[0]) {
        HashInjective(lib, texts[k + 1], texts[0]);
      }
    }
    if Unseen(lib, texts[1..], seen + {HashText(lib, texts[0])}) && NoRepeats(texts[1..]) {
      forall a, b | 0 <= a < b < |texts| ensures texts[a] != texts[b] {
        assert texts[b] == texts[1..][b - 1];
        if a > 0 {
          assert texts[a] == texts[1..][a - 1];
        }
      }
    }
    if NoRepeats(texts) {
      assert forall k :: 0 <= k < |texts[1..]| ==> texts[1..][k] == texts[k + 1];
    }
  }

  lemma ChosenStep(claims: seq<(string, Json)>, ds: seq<Disclosure>, all: seq<string>, rest: seq<string>, k: nat)
    requires |ds| == |claims| && DistinctNames(claims) && k < |ds|
    requires forall j :: 0 <= j < |ds| ==> (ds[j].encoded in all <==> j == k || ds[j].encoded in rest)
    ensures Chosen(claims, ds, all) == Chosen(claims, ds, rest)[claims[k].0 := claims[k].1]
    ensures claims[k].0 in Chosen(claims, ds, rest) ==> Chosen(claims, ds, rest)[claims[k].0] == claims[k].1
  {
  }

  lemma ChosenFirst(lib: Library, i: Issuance, texts: seq<string>, d: Disclosure, claims: map<string, Json>)
    requires Sound(lib, i) && texts != [] && d in DisclosuresOf(lib, i) && d.encoded == texts[0]
    ensures var ds := DisclosuresOf(lib, i);
            claims[d.claimName := d.claimValue] + Chosen(i.req.disclosable, ds, texts[1..])
            == claims + Chosen(i.req.disclosable, ds, texts)
  {
    hide Encode, Encoded, Ideal, Chosen, OWN;
    var ds := DisclosuresOf(lib, i);
    var k :| 0 <= k < |ds| && ds[k] == d;
    forall j | 0 <= j < |ds| ensures ds[j].encoded in texts <==> j == k || ds[j].encoded in texts[1..] {
      assert texts == [texts[0]] + texts[1..];
      if j < k { DistinctDigests(lib, i, j, k); } else if k < j { DistinctDigests(lib, i, k, j); }
    }
    ChosenStep(i.req.disclosable, ds, texts, texts[1..], k);
  }

  // ---- The main theorems ----------------------------------------------------------------

  /** A presentation of an issued credential: some texts in the disclosure slots, and perhaps a trailing JWT. */
  function Presentation(lib: Library, i: Issuance, texts: seq<string>, kb: Option<string>): SdJwtVc
    requires |i.salts| == |i.req.disclosable|
  {
    SdJwtVc(JwtOf(lib, i), texts, kb)
  }

  /** Verifying accepts a presentation exactly within the credential's window and when the
      texts are issued disclosures without repetition; the claims are then exactly the chosen
      ones together with the visible plain ones. Anything repeated or not issued rejects it all. */
  lemma SelectiveDisclosure(lib: Library, i: Issuance, texts: seq<string>, kb: Option<string>, now: int)
    requires Sound(lib, i) && WellFormed(Presentation(lib, i, texts, kb))
    ensures var r := Verified(lib, Compact(Presentation(lib, i, texts, kb)), i.key, now);
            var ds := DisclosuresOf(lib, i);
            && (r.Ok? <==> StartOfDay(i.at) <= now < StartOfDay(i.at) + DAY_SECS * 365
                           && NoRepeats(texts) && AllIssued(ds, texts))
            && (r.Ok? ==>
                  && r.value.claims == Chosen(i.req.disclosable, ds, texts) + VisibleClaims(Obj(i.req.plain))
                  && r.value.payload == PayloadOf(lib, i))
  {
    hide VerifyCompact, SdArray, InWindow, VisibleClaims, Chosen, Compact, NewDisclosures, DiscloseAll, IssuerJwt,
         Ideal, DistinctNames, Payload, WellFormed, Parsed, AllIssued, NoRepeats, Hashes, EncodedForms;
    ParseCompact(Presentation(lib, i, texts, kb));
    JwtReads(lib, i);
    PayloadReads(lib, i);
    PayloadShows(lib, i);
    DiscloseAllExactly(lib, i, texts, {}, map[]);
    assert map[] + Chosen(i.req.disclosable, DisclosuresOf(lib, i), texts)
           == Chosen(i.req.disclosable, DisclosuresOf(lib, i), texts);
  }

  /** Every plain claim comes back, and nothing else, exactly when no plain name starts with `_`. */
  lemma PlainClaimsExact(plain: map<string, Json>)
    requires plain.Keys !! OWN
    ensures VisibleClaims(Obj(plain)) == plain <==> forall name :: name in plain ==> !(name != "" && name[0] == '_')
  {
  }

  // ---- Key binding -------------------------------------------------------------------------

  /** Where `strip_suffix` and the last-`~` search both cut: right before the key binding JWT. */
  lemma PrefixBeforeJwt(presentation: string)
    requires Parsed(presentation).Ok? && Parsed(presentation).value.keyBindingJwt.Some?
    ensures var kb := Parsed(presentation).value.keyBindingJwt.value;
            var prefix := StripSuffix(presentation, kb);
            && prefix.Some? && presentation == prefix.value + kb
            && LastIndex(prefix.value, SEPARATOR) == Some(|prefix.value| - 1)
  {
    var parts := Split(presentation, SEPARATOR);
    SplitParts(presentation, SEPARATOR);
    var init, kb := parts[..|parts| - 1], parts[|parts| - 1];
    assert parts == init + [kb];
    JoinLast(init, kb, SEPARATOR);
    var prefix := Join(init, SEPARATOR) + [SEPARATOR];
    assert presentation == prefix + kb;
    assert presentation[|presentation| - |kb|..] == kb && presentation[..|presentation| - |kb|] == prefix;
  }

  /** What acceptance means: the hash claim covers exactly the text before the JWT. */
  lemma BoundToPrefix(lib: Library, presentation: string, holder: Jwk, nonce: string, audience: string)
    requires VerifyKeyBinding(lib, presentation, holder, nonce, audience).Ok?
    ensures Parsed(presentation).Ok? && Parsed(presentation).value.keyBindingJwt.Some?
    ensures var kb := Parsed(presentation).value.keyBindingJwt.value;
            var decoded := DecodeCompact(lib, kb);
            && decoded.Ok? && lib.verify(holder, decoded.value.signingInput, decoded.value.signature)
            && decoded.value.header.typ == Some("kb+jwt")
            && AlgorithmForJwk(holder).Some? && decoded.value.header.alg == AlgorithmForJwk(holder).value.Name()
            && lib.parseJson(decoded.value.payload).Some?
            && var payload := lib.parseJson(decoded.value.payload).value;
            && payload.GetStr("nonce") == Some(nonce) && payload.GetStr("aud") == Some(audience)
            && payload.GetStr("sd_hash") == Some(HashText(lib, presentation[..|presentation| - |kb|]))
  {
    hide DecodeCompact, HashText, Parsed;
    PrefixBeforeJwt(presentation);
    var kb := Parsed(presentation).value.keyBindingJwt.value;
    var prefix := StripSuffix(presentation, kb).value;
    assert prefix[..|prefix| - 1 + 1] == prefix;
  }

  /** The presentation ends in a JWT of the holder's for this nonce and audience, over exactly the text
      before it. */
  ghost predicate EndsBound(lib: Library, presentation: string, holder: Jwk, nonce: string, audience: string) {
    && Parsed(presentation).Ok? && Parsed(presentation).value.keyBindingJwt.Some?
    && var kb := Parsed(presentation).value.keyBindingJwt.value;
    && |kb| <= |presentation| && presentation[|presentation| - |kb|..] == kb
    && SignedUnder(lib, kb, holder) && DecodeCompact(lib, kb).Ok?
    && var decoded := DecodeCompact(lib, kb).value;
    && decoded.header.typ == Some("kb+jwt") && lib.parseJson(decoded.payload).Some?
    && var payload := lib.parseJson(decoded.payload).value;
    && payload.GetStr("nonce") == Some(nonce) && payload.GetStr("aud") == Some(audience)
    && payload.GetStr("sd_hash") == Some(HashText(lib, presentation[..|presentation| - |kb|]))
  }

  /** A key binding is accepted iff it is one. */
  lemma BoundIff(lib: Library, presentation: string, holder: Jwk, nonce: string, audience: string)
    ensures VerifyKeyBinding(lib, presentation, holder, nonce, audience).Ok? <==>
            EndsBound(lib, presentation, holder, nonce, audience)
  {
    hide DecodeCompact, HashText, Parsed, LastIndex;
    if Parsed(presentation).Ok? && Parsed(presentation).value.keyBindingJwt.Some? {
      PrefixBeforeJwt(presentation);
      var kb := Parsed(presentation).value.keyBindingJwt.value;
      var prefix := StripSuffix(presentation, kb).value;
      assert prefix == presentation[..|presentation| - |kb|] && presentation[|presentation| - |kb|..] == kb;
      assert prefix[..|prefix| - 1 + 1] == prefix;
      assert ComputeSdHash(lib, prefix) == HashText(lib, prefix);
    }
  }

  /** The problem a key binding is refused for is there. */
  lemma ProblemIsTrue(lib: Library, presentation: string, holder: Jwk, nonce: string, audience: string)
    requires VerifyKeyBinding(lib, presentation, holder, nonce, audience).Err?
    ensures VerifyKeyBinding(lib, presentation, holder, nonce, audience).error.KeyBinding?
    ensures var problem := VerifyKeyBinding(lib, presentation, holder, nonce, audience).error.problem;
            if Parsed(presentation).Err? then problem == MalformedPresentation
            else if Parsed(presentation).value.keyBindingJwt.None? then problem == Missing
            else
              var kb := Parsed(presentation).value.keyBindingJwt.value;
              if DecodeCompact(lib, kb).Err? then problem == MalformedJwt
              else
                var decoded := DecodeCompact(lib, kb).value;
                match problem
                case UnsupportedKey => AlgorithmForJwk(holder).None?
                case WrongAlg =>
                  AlgorithmForJwk(holder).Some? && decoded.header.alg != AlgorithmForJwk(holder).value.Name()
                case WrongTyp => decoded.header.typ != Some("kb+jwt")
                case BadSignature => !lib.verify(holder, decoded.signingInput, decoded.signature)
                case MalformedJwt => lib.parseJson(decoded.payload).None?
                case _ =>
                  && lib.parseJson(decoded.payload).Some?
                  && ClaimProblem(lib, lib.parseJson(decoded.payload).value,
                                  presentation[..if |kb| <= |presentation| then |presentation| - |kb| else 0], nonce,
                                  audience, problem)
  {
    hide DecodeCompact, HashText, Parsed, LastIndex;
    if Parsed(presentation).Ok? && Parsed(presentation).value.keyBindingJwt.Some? {
      PrefixBeforeJwt(presentation);
      var kb := Parsed(presentation).value.keyBindingJwt.value;
      var prefix := StripSuffix(presentation, kb).value;
      assert prefix == presentation[..|presentation| - |kb|];
      assert prefix[..|prefix| - 1 + 1] == prefix;
      assert ComputeSdHash(lib, prefix) == HashText(lib, prefix);
    }
  }

  ghost predicate ClaimProblem(lib: Library, payload: Json, prefix: string, nonce: string, audience: string,
                               problem: KeyBindingProblem) {
    match problem
    case NonceMissing => payload.GetStr("nonce").None?
    case NonceMismatch => payload.GetStr("nonce").Some? && payload.GetStr("nonce") != Some(nonce)
    case AudienceMissing => payload.GetStr("aud").None?
    case AudienceMismatch => payload.GetStr("aud").Some? && payload.GetStr("aud") != Some(audience)
    case HashMissing => payload.GetStr("sd_hash").None?
    case HashMismatch => payload.GetStr("sd_hash").Some? && payload.GetStr("sd_hash") != Some(HashText(lib, prefix))
    case _ => false
  }

  /** One key binding JWT fits one presentation only, whoever checks it and for whatever request. */
  lemma OneJwtOnePresentation(lib: Library, p: string, q: string,
                              h1: Jwk, n1: string, a1: string, h2: Jwk, n2: string, a2: string)
    requires Ideal(lib)
    requires VerifyKeyBinding(lib, p, h1, n1, a1).Ok? && VerifyKeyBinding(lib, q, h2, n2, a2).Ok?
    requires Parsed(p).value.keyBindingJwt == Parsed(q).value.keyBindingJwt
    ensures p == q
  {
    hide VerifyKeyBinding, DecodeCompact, HashText, Parsed, Ideal;
    BoundToPrefix(lib, p, h1, n1, a1);
    BoundToPrefix(lib, q, h2, n2, a2);
    PrefixBeforeJwt(p);
    PrefixBeforeJwt(q);
    var kb := Parsed(p).value.keyBindingJwt.value;
    HashInjective(lib, p[..|p| - |kb|], q[..|q| - |kb|]);
  }

  /** Issued disclosures fit the compact form. */
  lemma IssuedCarried(lib: Library, i: Issuance, text: string)
    requires Sound(lib, i) && text in EncodedForms(DisclosuresOf(lib, i))
    ensures Carried(text)
  {
    hide Encode, DistinctNames, OWN;
    var ds := DisclosuresOf(lib, i);
    var k :| 0 <= k < |ds| && EncodedForms(ds)[k] == text;
    var (name, value) := i.req.disclosable[k];
    var bytes := lib.jsonText(Arr([Str(ds[k].salt), Str(name), value]));
    SegmentFree(bytes);
    DecodeEncode(UrlUnpadded, bytes);
    DecodeEncode(UrlUnpadded, []);
    EmptyEncodes(UrlUnpadded);
  }

  /** Appending the key binding JWT to the unbound form gives the bound form. */
  lemma AppendJwt(x: SdJwtVc, kb: string)
    requires x.keyBindingJwt == None
    ensures Compact(x) + kb == Compact(x.(keyBindingJwt := Some(kb)))
    ensures LastIndex(Compact(x), SEPARATOR) == Some(|Compact(x)| - 1)
  {
    hide Join;
    var init := [x.issuerJwt] + x.disclosures;
    JoinLast(init, "", SEPARATOR);
    JoinLast(init, kb, SEPARATOR);
    assert Parts(x) == init + [""] && Parts(x.(keyBindingJwt := Some(kb))) == init + [kb];
    assert Compact(x) == Join(init, SEPARATOR) + [SEPARATOR];
  }

  /** What a holder sends: the chosen disclosures and a JWT made for one request. */
  function KeyBindingJwtFor(lib: Library, i: Issuance, texts: seq<string>, holder: Jwk, nonce: string, audience: string,
                            at: int): string
    requires |i.salts| == |i.req.disclosable|
  {
    CreateKeyBindingJwt(lib, holder, nonce, audience, ComputeSdHash(lib, Compact(Presentation(lib, i, texts, None))),
                        at)
  }

  lemma KeyBindingReads(lib: Library, holder: Jwk, nonce: string, audience: string, sdHash: string, at: int)
    requires Ideal(lib) && AlgorithmForJwk(holder).Some?
    ensures var kb := CreateKeyBindingJwt(lib, holder, nonce, audience, sdHash, at);
            var decoded := DecodeCompact(lib, kb);
            && LooksLikeJwt(kb) && Free(kb, SEPARATOR) && decoded.Ok?
            && decoded.value.header.alg == AlgorithmForJwk(holder).value.Name()
            && decoded.value.header.typ == Some("kb+jwt")
            && lib.verify(holder, decoded.value.signingInput, decoded.value.signature)
            && lib.parseJson(decoded.value.payload)
               == Some(Obj(map["nonce" := Str(nonce), "aud" := Str(audience), "iat" := Num(at),
                               "sd_hash" := Str(sdHash)]))
  {
    hide DecodeCompact, SignCompact, Count, SigningInput;
    var header := JwsHeader(AlgorithmForJwk(holder).value.Name(), Some("kb+jwt"), None, Some(holder), None);
    var payload := Obj(map["nonce" := Str(nonce), "aud" := Str(audience), "iat" := Num(at), "sd_hash" := Str(sdHash)]);
    DecodeSigned(lib, holder, header, payload);
  }

  /** An honest presentation verifies with exactly the chosen claims, and its key binding is
      accepted for the nonce and audience it was made for and no others. */
  lemma HonestPresentation(lib: Library, i: Issuance, texts: seq<string>, holder: Jwk,
                           nonce: string, audience: string, at: int, now: int, nonce': string, audience': string)
    requires Sound(lib, i) && AlgorithmForJwk(holder).Some?
    requires i.req.cnf == Some(Obj(map["jwk" := JwkJson(holder)]))
    requires NoRepeats(texts) && AllIssued(DisclosuresOf(lib, i), texts)
    requires StartOfDay(i.at) <= now < StartOfDay(i.at) + DAY_SECS * 365
    ensures var kb := KeyBindingJwtFor(lib, i, texts, holder, nonce, audience, at);
            var sent := Compact(Presentation(lib, i, texts, None)) + kb;
            var r := Verified(lib, sent, i.key, now);
            && r.Ok? && r.value.HolderJwk() == Some(holder)
            && r.value.claims == Chosen(i.req.disclosable, DisclosuresOf(lib, i),
                                        texts) + VisibleClaims(Obj(i.req.plain))
            && (VerifyKeyBinding(lib, sent, holder, nonce', audience').Ok?
                <==> nonce' == nonce && audience' == audience)
  {
    hide Compact, ComputeSdHash, CreateKeyBindingJwt, DecodeCompact, Verified, VisibleClaims, Chosen, DistinctNames,
         OWN, IssuerJwt, NewDisclosures, Payload, JwkJson, JwkFromJson, Count, LastIndex, Parsed, HashText;
    var unbound := Presentation(lib, i, texts, None);
    var sdHash := ComputeSdHash(lib, Compact(unbound));
    var kb := CreateKeyBindingJwt(lib, holder, nonce, audience, sdHash, at);
    KeyBindingReads(lib, holder, nonce, audience, sdHash, at);
    AppendJwt(unbound, kb);
    var sent := Compact(unbound) + kb;
    assert WellFormed(Presentation(lib, i, texts, Some(kb))) by {
      JwtReads(lib, i);
      forall k | 0 <= k < |texts| ensures Carried(texts[k]) { IssuedCarried(lib, i, texts[k]); }
    }
    SelectiveDisclosure(lib, i, texts, Some(kb), now);
    HolderReads(lib, i, holder);
    ParseCompact(Presentation(lib, i, texts, Some(kb)));
    assert StripSuffix(sent, kb) == Some(Compact(unbound)) by {
      assert sent[|sent| - |kb|..] == kb && sent[..|sent| - |kb|] == Compact(unbound);
    }
  }

  lemma HolderReads(lib: Library, i: Issuance, holder: Jwk)
    requires Sound(lib, i) && i.req.cnf == Some(Obj(map["jwk" := JwkJson(holder)]))
    ensures VerifiedSdJwtVc(map[], PayloadOf(lib, i)).HolderJwk() == Some(holder)
  {
    hide JwkJson, JwkFromJson, NewDisclosures, Texts, Hashes;
    JwkRoundTrip(holder);
    PlainKeepsOwn(BaseClaims(i.req, Hashes(DisclosuresOf(lib, i)), StartOfDay(i.at)), i.req.plain, "cnf");
  }

  // ---- Whatever is accepted was signed ---------------------------------------------------------

  /** A disclosure among `texts` names this claim, and its digest is one of those signed. */
  ghost predicate DisclosedBy(lib: Library, sd: seq<string>, texts: seq<string>, name: string, value: Json) {
    exists k :: 0 <= k < |texts| && Discloses(lib, sd, texts[k], name, value)
  }

  predicate Discloses(lib: Library, sd: seq<string>, text: string, name: string, value: Json) {
    HashText(lib, text) in sd && FromEncoded(lib, text).Ok?
    && FromEncoded(lib, text).value.claimName == name && FromEncoded(lib, text).value.claimValue == value
  }

  lemma {:induction false} DisclosedClaims(lib: Library, sd: seq<string>, texts: seq<string>, seen: set<string>,
                                           claims: map<string, Json>)
    requires DiscloseAll(lib, sd, texts, seen, claims).Ok?
    ensures var r := DiscloseAll(lib, sd, texts, seen, claims).value;
            forall name :: name in r ==>
              DisclosedBy(lib, sd, texts, name, r[name]) || (name in claims && claims[name] == r[name])
    decreases |texts|
  {
    hide FromEncoded;
    if texts != [] {
      var d := FromEncoded(lib, texts[0]).value;
      FromEncodedHash(lib, texts[0]);
      var rest := texts[1..];
      DisclosedClaims(lib, sd, rest, seen + {d.hash}, claims[d.claimName := d.claimValue]);
      var r := DiscloseAll(lib, sd, texts, seen, claims).value;
      assert Discloses(lib, sd, texts[0], d.claimName, d.claimValue);
      forall name | name in r && DisclosedBy(lib, sd, rest, name, r[name])
        ensures DisclosedBy(lib, sd, texts, name, r[name])
      {
        var k :| 0 <= k < |rest| && Discloses(lib, sd, rest[k], name, r[name]);
        assert Discloses(lib, sd, texts[k + 1], name, r[name]);
      }
    }
  }

  lemma FromEncodedHash(lib: Library, text: string)
    ensures FromEncoded(lib, text).Ok? ==> FromEncoded(lib, text).value.hash == HashText(lib, text)
  {
    hide HashText;
  }

  /** Whatever the texts: they are all taken iff each decodes, its digest is signed and was not seen, and no
      digest comes twice. Then a claim has the value the last text that names it gives it. */
  lemma {:induction false} DiscloseAllIff(lib: Library, sd: seq<string>, texts: seq<string>, seen: set<string>,
                                          claims: map<string, Json>)
    ensures DiscloseAll(lib, sd, texts, seen, claims).Ok? <==>
            && (forall i :: 0 <= i < |texts| ==>
                  FromEncoded(lib, texts[i]).Ok? && HashText(lib, texts[i]) in sd && HashText(lib, texts[i]) !in seen)
            && (forall i, j :: 0 <= i < j < |texts| ==> HashText(lib, texts[i]) != HashText(lib, texts[j]))
    ensures DiscloseAll(lib, sd, texts, seen, claims).Ok? && texts != [] ==>
            && DiscloseAll(lib, sd, texts[..|texts| - 1], seen, claims).Ok?
            && FromEncoded(lib, texts[|texts| - 1]).Ok?
            && var last := FromEncoded(lib, texts[|texts| - 1]).value;
            DiscloseAll(lib, sd, texts, seen, claims).value
            == DiscloseAll(lib, sd, texts[..|texts| - 1], seen, claims).value[last.claimName := last.claimValue]
    decreases |texts|
  {
    hide FromEncoded, HashText;
    if texts != [] {
      FromEncodedHash(lib, texts[0]);
      assert forall i :: 0 <= i < |texts| - 1 ==> texts[1..][i] == texts[i + 1];
      var first := Disclose(lib, sd, texts[0], seen);
      if first.Ok? {
        var d := first.value;
        DiscloseAllIff(lib, sd, texts[1..], seen + {d.hash}, claims[d.claimName := d.claimValue]);
        if |texts| > 1 {
          assert texts[1..][..|texts[1..]| - 1] == texts[..|texts| - 1][1..];
        }
      }
    }
  }

  /** The digests a payload signs: its `_sd` array if that is an array of text, and none otherwise. */
  lemma SdArrayMeans(payload: Json)
    ensures var sd := payload.Get("_sd");
            if sd.Some? && sd.value.Arr? && forall i :: 0 <= i < |sd.value.items| ==> sd.value.items[i].Str? then
              && |SdArray(payload)| == |sd.value.items|
              && forall i :: 0 <= i < |sd.value.items| ==> sd.value.items[i] == Str(SdArray(payload)[i])
            else SdArray(payload) == []
  {
  }

  /** Any string is accepted as an SD-JWT VC iff its first part is a JWT the issuer's key signed, with a JSON
      payload that has not expired and is not early, a missing date counting as none, and its disclosures
      are all taken; then the claims are the disclosed ones and the visible members, which win. */
  lemma VerifiedIff(lib: Library, sdJwt: string, issuerKey: Jwk, now: int, v: VerifiedSdJwtVc)
    ensures Verified(lib, sdJwt, issuerKey, now) == Ok(v) <==>
            && Parsed(sdJwt).Ok? && DecodeCompact(lib, Parsed(sdJwt).value.issuerJwt).Ok?
            && var decoded := DecodeCompact(lib, Parsed(sdJwt).value.issuerJwt).value;
            && lib.verify(issuerKey, decoded.signingInput, decoded.signature)
            && lib.parseJson(decoded.payload) == Some(v.payload)
            && (v.payload.GetInt("exp").Some? ==> now < v.payload.GetInt("exp").value)
            && (v.payload.GetInt("nbf").Some? ==> v.payload.GetInt("nbf").value <= now)
            && var disclosed := DiscloseAll(lib, SdArray(v.payload), Parsed(sdJwt).value.disclosures, {}, map[]);
            disclosed.Ok? && v.claims == disclosed.value + VisibleClaims(v.payload)
  {
    hide DecodeCompact, SdArray, VisibleClaims, DiscloseAll, Parsed;
  }

  /** Any accepted string, however made: the issuer's key accepts the signature, the payload is in its
      window, and every claim is a visible payload member or comes from a disclosure whose digest the
      issuer signed. */
  lemma AcceptedWasSigned(lib: Library, sdJwt: string, issuerKey: Jwk, now: int)
    requires Verified(lib, sdJwt, issuerKey, now).Ok?
    ensures var r := Verified(lib, sdJwt, issuerKey, now).value;
            var decoded := DecodeCompact(lib, Parsed(sdJwt).value.issuerJwt);
            && Parsed(sdJwt).Ok? && decoded.Ok?
            && lib.verify(issuerKey, decoded.value.signingInput, decoded.value.signature)
            && lib.parseJson(decoded.value.payload) == Some(r.payload) && InWindow(r.payload, now)
            && (forall name :: name in r.claims ==>
                 || (name in VisibleClaims(r.payload) && r.claims[name] == VisibleClaims(r.payload)[name])
                 || DisclosedBy(lib, SdArray(r.payload), Parsed(sdJwt).value.disclosures, name, r.claims[name]))
  {
    hide DecodeCompact, SdArray, VisibleClaims, DiscloseAll, Parsed, DisclosedBy;
    var payload := Verified(lib, sdJwt, issuerKey, now).value.payload;
    DisclosedClaims(lib, SdArray(payload), Parsed(sdJwt).value.disclosures, {}, map[]);
  }
}
