/** What holds over every run of the verifier. */
module VerifierRuns {
  import opened Wrappers
  import opened Jws
  import opened SdJwt
  import opened Verifier

  datatype Op =
    | Create(clientId: string, query: Option<seq<CredentialQuery>>, lifetime: nat, id: string, nonce: string,
             state: string)
    | Answer(response: Response)
    | Tick(elapsed: nat)

  /** An accepted response: for which session, what it was and when. */
  datatype Accepted = Accepted(session: Session, token: Json, claims: map<string, Json>, at: int)

  /** `created` remembers every session there ever was. */
  datatype Sys = Sys(store: Store, clock: int, used: set<string>, created: map<string, Session>, results: seq<Accepted>)

  datatype Env = Env(lib: Library, issuerKey: Jwk)

  const INIT: Sys := Sys(Store(map[], map[]), 0, {}, map[], [])

  function NewSession(op: Op, clock: int): Session
    requires op.Create?
  {
    Session(op.id, op.nonce, op.state, op.clientId, op.query, clock + op.lifetime)
  }

  function Step(env: Env, s: Sys, op: Op): Sys {
    match op
    case Tick(elapsed) => s.(clock := s.clock + elapsed)
    case Create(_, _, _, id, nonce, state) =>
      if id in s.used || nonce in s.used || state in s.used || id == nonce || nonce == state || id == state then s
      else s.(store := s.store.Put(NewSession(op, s.clock)), used := s.used + {id, nonce, state},
              created := s.created[id := NewSession(op, s.clock)])
    case Answer(response) =>
      var (r, store) := Respond(env.lib, s.store, response, env.issuerKey, s.clock);
      match r
      case Err(_) => s.(store := store)
      case Ok(result) =>
        if result.sessionId in s.created && response.vpToken.Some?
        then s.(store := store, results := s.results + [Accepted(s.created[result.sessionId], response.vpToken.value,
                                                                 result.claims, s.clock)])
        else s
  }

  function Run(env: Env, ops: seq<Op>): Sys {
    if ops == [] then INIT else Step(env, Run(env, ops[..|ops| - 1]), ops[|ops| - 1])
  }

  /** A session is what was asked for: with the given strings, this client and query, until its lifetime is
      over; a response with its state is judged for exactly that. */
  lemma CreatesAsked(env: Env, s: Sys, op: Op)
    requires op.Create? && s.store.Inverse()
    requires op.id !in s.used && op.nonce !in s.used && op.state !in s.used
    requires op.id != op.nonce && op.nonce != op.state && op.id != op.state
    requires op.id !in s.store.sessions && op.state !in s.store.stateToId
    ensures var session := Session(op.id, op.nonce, op.state, op.clientId, op.query, s.clock + op.lifetime);
            var after := Step(env, s, op);
            && after.created == s.created[op.id := session]
            && forall state :: after.store.ByState(state)
                               == if state == op.state then Some(session) else s.store.ByState(state)
  {
    hide Store.Inverse, Store.Put, Store.ByState;
    forall state
      ensures Step(env, s, op).store.ByState(state)
              == if state == op.state then Some(NewSession(op, s.clock)) else s.store.ByState(state)
    {
      SessionsApart(s.store, NewSession(op, s.clock), state);
    }
  }

  // ---- Invariants --------------------------------------------------------------------------------

  /** A live session is one that was created, and all its strings are in use. */
  ghost predicate CreatedOk(s: Sys) {
    && (forall id :: id in s.store.sessions ==> id in s.created && s.created[id] == s.store.sessions[id])
    && (forall id :: id in s.created ==> s.created[id].id == id
                                         && {id, s.created[id].nonce, s.created[id].state} <= s.used)
    && s.store.stateToId.Keys <= s.used
  }

  ghost predicate NoncesDiffer(s: Sys) {
    forall i, j :: i in s.created && j in s.created && s.created[i].nonce == s.created[j].nonce ==> i == j
  }

  /** A result is what the checks of its session gave, in time, and its session is over. */
  ghost predicate ResultOk(env: Env, s: Sys, a: Accepted) {
    && a.session.id in s.created && s.created[a.session.id] == a.session && a.session.id !in s.store.sessions
    && a.at <= a.session.expiresAt
    && (exists state :: CheckResponse(env.lib, Response(Some(a.token), state), env.issuerKey, a.session,
                                      a.at) == Ok(a.claims))
  }

  ghost predicate ResultsOk(env: Env, s: Sys) {
    && (forall k :: 0 <= k < |s.results| ==> ResultOk(env, s, s.results[k]))
    && (forall j, k :: 0 <= j < k < |s.results| ==> s.results[j].session.id != s.results[k].session.id)
  }

  ghost predicate Inv(env: Env, s: Sys) {
    s.store.Inverse() && CreatedOk(s) && NoncesDiffer(s) && ResultsOk(env, s)
  }

  lemma PutInverse(store: Store, session: Session)
    requires store.Inverse() && session.id !in store.sessions && session.state !in store.stateToId
    ensures store.Put(session).Inverse()
  {
  }

  lemma DeleteInverse(store: Store, id: string)
    requires store.Inverse()
    ensures store.Delete(id).Inverse()
  {
  }

  lemma CreateKeepsCreated(env: Env, s: Sys, op: Op)
    requires CreatedOk(s) && NoncesDiffer(s) && op.Create?
    ensures CreatedOk(Step(env, s, op)) && NoncesDiffer(Step(env, s, op))
  {
  }

  lemma CreateKeeps(env: Env, s: Sys, op: Op)
    requires Inv(env, s) && op.Create?
    ensures Inv(env, Step(env, s, op))
  {
    hide CheckResponse, Store.Inverse, Store.Put, NoncesDiffer, ResultsOk;
    CreateKeepsCreated(env, s, op);
    if Step(env, s, op) != s {
      assert op.id !in s.created && op.id !in s.store.sessions;
      assert op.state !in s.store.stateToId;
      PutInverse(s.store, NewSession(op, s.clock));
      CreateKeepsResults(env, s, op);
    }
  }

  lemma CreateKeepsResults(env: Env, s: Sys, op: Op)
    requires Inv(env, s) && op.Create? && op.id !in s.created
    ensures ResultsOk(env, Step(env, s, op))
  {
  }

  /** A deletion: what was created stays known, and results stay results. */
  lemma DeleteKeeps(env: Env, s: Sys, id: string)
    requires Inv(env, s)
    ensures Inv(env, s.(store := s.store.Delete(id)))
  {
    hide CreatedOk, ResultsOk, NoncesDiffer, Store.Inverse, Store.Delete;
    DeleteInverse(s.store, id);
    DeleteKeepsCreated(s, id);
    DeleteKeepsResults(env, s, id);
  }

  lemma DeleteKeepsCreated(s: Sys, id: string)
    requires CreatedOk(s) && NoncesDiffer(s)
    ensures CreatedOk(s.(store := s.store.Delete(id))) && NoncesDiffer(s.(store := s.store.Delete(id)))
  {
  }

  lemma DeleteKeepsResults(env: Env, s: Sys, id: string)
    requires ResultsOk(env, s)
    ensures ResultsOk(env, s.(store := s.store.Delete(id)))
  {
    hide CheckResponse;
    var after := s.(store := s.store.Delete(id));
    forall k | 0 <= k < |s.results| ensures ResultOk(env, after, s.results[k]) {
      assert ResultOk(env, s, s.results[k]);
    }
  }

  lemma AnswerKeeps(env: Env, s: Sys, op: Op)
    requires Inv(env, s) && op.Answer?
    ensures Inv(env, Step(env, s, op))
  {
    hide CheckResponse, Store.Inverse, NoncesDiffer, ResultsOk, CreatedOk;
    if op.response.state.Some? && s.store.ByState(op.response.state.value).Some? {
      var session := s.store.ByState(op.response.state.value).value;
      DeleteKeeps(env, s, session.id);
      LiveSession(env, s, op.response.state.value);
      var r := CheckResponse(env.lib, op.response, env.issuerKey, session, s.clock);
      if s.clock <= session.expiresAt && r.Ok? {
        TokenSent(env, op.response, session, s.clock);
        AcceptedKeeps(env, s, session, op.response, r.value);
      }
    }
  }

  lemma TokenSent(env: Env, response: Response, session: Session, now: int)
    requires CheckResponse(env.lib, response, env.issuerKey, session, now).Ok?
    ensures response.vpToken.Some?
  {
  }

  lemma LiveSession(env: Env, s: Sys, state: string)
    requires Inv(env, s) && s.store.ByState(state).Some?
    ensures var session := s.store.ByState(state).value;
            session.id in s.store.sessions && s.store.sessions[session.id] == session
            && session.id in s.created && s.created[session.id] == session
  {
  }

  lemma AcceptedKeeps(env: Env, s: Sys, session: Session, response: Response, claims: map<string, Json>)
    requires Inv(env, s) && session.id in s.store.sessions && session.id in s.created
    requires s.created[session.id] == session
    requires s.clock <= session.expiresAt && response.vpToken.Some?
    requires CheckResponse(env.lib, response, env.issuerKey, session, s.clock) == Ok(claims)
    ensures var after := s.(store := s.store.Delete(session.id),
                            results := s.results + [Accepted(session, response.vpToken.value, claims, s.clock)]);
            Inv(env, after)
  {
    hide CheckResponse, Store.Inverse;
    DeleteKeeps(env, s, session.id);
    var deleted := s.(store := s.store.Delete(session.id));
    var last := Accepted(session, response.vpToken.value, claims, s.clock);
    var after := deleted.(results := s.results + [last]);
    assert response == Response(Some(last.token), response.state);
    forall k | 0 <= k < |after.results| ensures ResultOk(env, after, after.results[k]) {
      if k < |s.results| {
        assert ResultOk(env, deleted, deleted.results[k]);
      }
    }
    forall k | 0 <= k < |s.results| ensures s.results[k].session.id != session.id {
      assert ResultOk(env, s, s.results[k]);
    }
  }

  lemma TickKeeps(env: Env, s: Sys, op: Op)
    requires Inv(env, s) && op.Tick?
    ensures Inv(env, Step(env, s, op))
  {
  }

  lemma {:induction false} RunKeeps(env: Env, ops: seq<Op>)
    ensures Inv(env, Run(env, ops))
  {
    hide Inv, Step;
    if ops == [] {
      InitHolds(env);
    } else {
      var s, op := Run(env, ops[..|ops| - 1]), ops[|ops| - 1];
      RunKeeps(env, ops[..|ops| - 1]);
      match op {
        case Create(_, _, _, _, _, _) => CreateKeeps(env, s, op);
        case Answer(_) => AnswerKeeps(env, s, op);
        case Tick(_) => TickKeeps(env, s, op);
      }
    }
  }

  lemma InitHolds(env: Env)
    ensures Inv(env, INIT)
  {
  }

  // ---- Theorems ------------------------------------------------------------------------------------

  /** In every run the two maps of the store are inverse to each other, each session yields at most
      one result, no later than its expiry, with claims that satisfy every query it asked. */
  lemma OneResultPerSession(env: Env, ops: seq<Op>)
    ensures var s := Run(env, ops);
            && s.store.Inverse()
            && (forall j, k :: 0 <= j < k < |s.results| ==> s.results[j].session.id != s.results[k].session.id)
            && (forall k :: 0 <= k < |s.results| ==>
                  s.results[k].at <= s.results[k].session.expiresAt
                  && AllMet(s.results[k].session.query, s.results[k].claims))
  {
    hide Run, CreatedOk, NoncesDiffer, VerifyToken, AllMet, Store.Inverse;
    RunKeeps(env, ops);
    var s := Run(env, ops);
    forall k | 0 <= k < |s.results| ensures s.results[k].at <= s.results[k].session.expiresAt
    && AllMet(s.results[k].session.query, s.results[k].claims) {
      assert ResultOk(env, s, s.results[k]);
    }
  }

  /** A presented SD-JWT VC is bound to its holder's key, this session's nonce and this verifier. */
  lemma HolderBound(env: Env, ops: seq<Op>, k: nat)
    requires k < |Run(env, ops).results|
    requires Run(env, ops).results[k].token.Str? && '~' in Run(env, ops).results[k].token.s
    ensures var a := Run(env, ops).results[k];
            var verified := Verified(env.lib, a.token.s, env.issuerKey, a.at);
            && verified.Ok? && verified.value.claims == a.claims && verified.value.HolderJwk().Some?
            && VerifyKeyBinding(env.lib, a.token.s, verified.value.HolderJwk().value, a.session.nonce,
                                a.session.clientId).Ok?
  {
    hide Run, CreatedOk, NoncesDiffer, Verified, VerifyKeyBinding, AllMet, Store.Inverse;
    RunKeeps(env, ops);
    assert ResultOk(env, Run(env, ops), Run(env, ops).results[k]);
  }

  lemma SameTokenSameSession(env: Env, ops: seq<Op>, j: nat, k: nat)
    requires j < |Run(env, ops).results| && k < |Run(env, ops).results|
    requires Run(env, ops).results[j].token.Str? && '~' in Run(env, ops).results[j].token.s
    requires Run(env, ops).results[k].token == Run(env, ops).results[j].token
    ensures Run(env, ops).results[j].session.id == Run(env, ops).results[k].session.id
  {
    hide Run, VerifyKeyBinding, Verified, VerifiedSdJwtVc.HolderJwk, Store.Inverse, CheckResponse;
    var a, b := Run(env, ops).results[j], Run(env, ops).results[k];
    HolderBound(env, ops, j);
    HolderBound(env, ops, k);
    var h1 := Verified(env.lib, a.token.s, env.issuerKey, a.at).value.HolderJwk().value;
    var h2 := Verified(env.lib, b.token.s, env.issuerKey, b.at).value.HolderJwk().value;
    OneNonce(env.lib, a.token.s, h1, a.session.nonce, a.session.clientId, h2, b.session.nonce, b.session.clientId);
    RunKeeps(env, ops);
    assert ResultOk(env, Run(env, ops), a) && ResultOk(env, Run(env, ops), b);
  }

  /** No SD-JWT VC presentation is accepted twice, in whatever sessions: its key binding names one nonce. */
  lemma PresentationAcceptedOnce(env: Env, ops: seq<Op>, j: nat, k: nat)
    requires j < k < |Run(env, ops).results|
    requires Run(env, ops).results[j].token.Str? && '~' in Run(env, ops).results[j].token.s
    ensures Run(env, ops).results[k].token != Run(env, ops).results[j].token
  {
    hide Run, Store.Inverse;
    OneResultPerSession(env, ops);
    if Run(env, ops).results[k].token == Run(env, ops).results[j].token {
      SameTokenSameSession(env, ops, j, k);
    }
  }

  lemma OneNonce(lib: Library, presentation: string, h1: Jwk, n1: string, a1: string, h2: Jwk, n2: string, a2: string)
    requires VerifyKeyBinding(lib, presentation, h1, n1, a1).Ok? && VerifyKeyBinding(lib, presentation, h2, n2, a2).Ok?
    ensures n1 == n2 && a1 == a2
  {
  }

  /** A session is created and answered at once: one more result. */
  lemma AskAndAnswer(env: Env, s: Sys, id: string, nonce: string, state: string, text: string)
    requires id !in s.used && nonce !in s.used && state !in s.used && id != nonce && nonce != state && id != state
    requires '~' !in text && VerifyJwtVp(env.lib, text, env.issuerKey).Ok?
    ensures var asked := Step(env, s, Create("", None, 0, id, nonce, state));
            var answered := Step(env, asked, Answer(Response(Some(Str(text)), Some(state))));
            && |answered.results| == |s.results| + 1 && s.results <= answered.results
            && answered.results[|s.results|].token == Str(text)
            && answered.used == s.used + {id, nonce, state}
  {
  }

  lemma RunOn(env: Env, ops: seq<Op>, op: Op)
    ensures Run(env, ops + [op]) == Step(env, Run(env, ops), op)
  {
  }

  lemma FourSteps(env: Env, a: Op, b: Op, c: Op, d: Op)
    ensures Run(env, [a, b, c, d]) == Step(env, Step(env, Step(env, Step(env, INIT, a), b), c), d)
  {
    hide Step;
    RunOn(env, [], a);
    RunOn(env, [a], b);
    RunOn(env, [a, b], c);
    RunOn(env, [a, b, c], d);
    assert [] + [a] == [a] && [a] + [b] == [a, b] && [a, b] + [c] == [a, b, c] && [a, b, c] + [d] == [a, b, c, d];
  }

  /** A plain JWT presentation carries no nonce: if it verifies, one session after another accepts it. */
  lemma PlainJwtAcceptedTwice(env: Env, text: string) returns (ops: seq<Op>)
    requires '~' !in text && VerifyJwtVp(env.lib, text, env.issuerKey).Ok?
    ensures |Run(env, ops).results| == 2
    ensures Run(env, ops).results[0].token == Run(env, ops).results[1].token == Str(text)
  {
    hide VerifyJwtVp, Step, Run;
    var a, b := Create("", None, 0, "1", "22", "333"), Answer(Response(Some(Str(text)), Some("333")));
    var c, d := Create("", None, 0, "4444", "55555", "666666"), Answer(Response(Some(Str(text)), Some("666666")));
    assert |"1"| == 1 && |"22"| == 2 && |"333"| == 3 && |"4444"| == 4 && |"55555"| == 5 && |"666666"| == 6;
    AskAndAnswer(env, INIT, "1", "22", "333", text);
    var first := Step(env, Step(env, INIT, a), b);
    AskAndAnswer(env, first, "4444", "55555", "666666", text);
    ops := [a, b, c, d];
    FourSteps(env, a, b, c, d);
  }

  /** Some run accepts this presentation twice. */
  ghost predicate Repeatable(env: Env, text: string) {
    exists ops, j, k :: AcceptedTwice(env, ops, j, k, text)
  }

  ghost predicate AcceptedTwice(env: Env, ops: seq<Op>, j: nat, k: nat, text: string) {
    j < k < |Run(env, ops).results| && Run(env, ops).results[j].token == Run(env, ops).results[k].token == Str(text)
  }

  /** The dividing line between the two forms: a presentation can be accepted twice iff it has no `~`,
      so is a plain JWT, and verifies. */
  lemma RepeatableIff(env: Env, text: string)
    ensures Repeatable(env, text) <==> '~' !in text && VerifyJwtVp(env.lib, text, env.issuerKey).Ok?
  {
    hide Run, VerifyJwtVp;
    if '~' !in text && VerifyJwtVp(env.lib, text, env.issuerKey).Ok? {
      var ops := PlainJwtAcceptedTwice(env, text);
      assert AcceptedTwice(env, ops, 0, 1, text);
    }
    forall ops, j, k | AcceptedTwice(env, ops, j, k, text)
      ensures '~' !in text && VerifyJwtVp(env.lib, text, env.issuerKey).Ok?
    {
      if '~' in text {
        PresentationAcceptedOnce(env, ops, j, k);
      }
      AcceptedVerifies(env, ops, k);
    }
  }

  /** A plain JWT that was accepted verifies. */
  lemma AcceptedVerifies(env: Env, ops: seq<Op>, k: nat)
    requires k < |Run(env, ops).results| && Run(env, ops).results[k].token.Str?
    requires '~' !in Run(env, ops).results[k].token.s
    ensures VerifyJwtVp(env.lib, Run(env, ops).results[k].token.s, env.issuerKey).Ok?
  {
    hide Run, CreatedOk, NoncesDiffer, VerifyJwtVp, AllMet, Store.Inverse;
    RunKeeps(env, ops);
    assert ResultOk(env, Run(env, ops), Run(env, ops).results[k]);
  }
}
