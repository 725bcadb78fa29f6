/** A credential request that nothing interrupts: the machine's steps are the handler's run. */
module ProtocolHandlers {
  import opened Wrappers
  import opened IssuerStore
  import opened CredentialIssuance
  import opened CredentialContents
  import opened CredentialEndpoint
  import opened Headers
  import opened Protocol
  import Authorization
  import Jws
  import Status = StatusManagers

  /** What handling a pushed request does to the store is a step of the machine, which records it iff it
      was accepted. */
  lemma PushIsStep(env: Env, s: Sys, headers: Headers, request: Authorization.ParRequest, client: string,
                   proofJkt: Option<string>, uuid: string,
                   r: Result<string, Authorization.AuthorizationError>, after: Store)
    returns (ids: seq<string>, via: bool)
    requires uuid !in s.used
    requires Authorization.Pars(env.issuer.metadata, request, client, proofJkt, uuid, s.clock, s.store, r, after)
    ensures var stepped := PushStep(env, s, Push(headers, request, client, proofJkt, uuid, ids, via));
            && stepped.store == after
            && (r.Ok? <==> stepped != s)
            && (r.Ok? ==> r.value in stepped.history.pars && stepped.history.pars[r.value].at == s.clock)
  {
    hide Authorization.Resolves, Authorization.CheckPar;
    ids, via := [], false;
    var jkt := Authorization.CheckPar(request, client, proofJkt);
    if r.Ok? {
      ids, via :| Authorization.Resolves(env.issuer.metadata, request, Ok((ids, via)))
                  && after == s.store.StoreSession(r.value, Authorization.NewSession(request, r.value, jkt.value, ids,
                                                                                     via, s.clock));
      assert uuid !in s.used && uuid in PushStep(env, s, Push(headers, request, client, proofJkt, uuid, ids, via)).used;
    } else if jkt.Ok? {
      OneOutcome(env.issuer.metadata, request, r.error, ids, via);
    }
  }

  lemma OneOutcome(metadata: Authorization.Metadata, request: Authorization.ParRequest,
                   e: Authorization.AuthorizationError, ids: seq<string>, via: bool)
    requires Authorization.Resolves(metadata, request, Err(e))
    ensures !Authorization.Resolves(metadata, request, Ok((ids, via)))
  {
    hide Authorization.ScopeIds, Authorization.Lists;
  }

  /** A nonce handed out is valid for 301 seconds from then, to the millisecond, unless it is consumed. */
  lemma NonceIsGood(s: Sys, uuid: string, now: int)
    requires uuid !in s.used && s.clock <= now
    ensures NonceStep(s, Nonce(uuid)).store.NonceValid(uuid, now) <==> now < s.clock + 301_000
    ensures forall n :: n != uuid ==> NonceStep(s, Nonce(uuid)).store.NonceValid(n, now) == s.store.NonceValid(n, now)
  {
  }

  ghost function Steps(env: Env, s: Sys, ops: seq<Op>): Sys {
    hide Step;
    if ops == [] then s else Step(env, Steps(env, s, ops[..|ops| - 1]), ops[|ops| - 1])
  }

  function Consumes(tid: nat, order: seq<string>): seq<Op> {
    seq(|order|, i requires 0 <= i < |order| => Consume(tid, order[i]))
  }

  function Tries(tid: nat, attempts: seq<Attempt>): seq<Op> {
    seq(|attempts|, i requires 0 <= i < |attempts| => IssueNext(tid, attempts[i]))
  }

  /** A thread that has ended takes no more steps. */
  lemma {:induction false} EndedStays(env: Env, s: Sys, tid: nat, ops: seq<Op>)
    requires tid !in s.threads
    requires forall i :: 0 <= i < |ops| ==> (ops[i].Consume? || ops[i].IssueNext? || ops[i].Finish?)
                                            && ops[i].tid == tid
    ensures Steps(env, s, ops) == s
  {
    hide PushStep, DecisionStep, TokenOpStep, OfferStep, RedeemPreStep, MintPreStep, NonceStep, AuthorizeStep,
         BeginStep, ManageStep,
         Possible, Outcome, Protocol.Tried;
    if ops != [] {
      EndedStays(env, s, tid, ops[..|ops| - 1]);
    }
  }

  // ---- The nonces ------------------------------------------------------------------------------------

  /** The state after some nonces were consumed, all of them valid. */
  function AfterNonces(s: Sys, tid: nat, consumed: set<string>, spent: map<string, int>): Sys
    requires tid in s.threads && s.threads[tid].Consuming?
  {
    var t := s.threads[tid];
    s.(store := s.store.(nonces := s.store.nonces - consumed),
       threads := s.threads[tid := t.(left := t.left - consumed, consumed := t.consumed + consumed)],
       history := s.history.(spent := spent))
  }

  predicate AllValid(store: Store, order: seq<string>, now: int) {
    forall i :: 0 <= i < |order| ==> store.NonceValid(order[i], now)
  }

  lemma ConsumeValid(s: Sys, tid: nat, consumed: set<string>, spent: map<string, int>, nonce: string)
    requires tid in s.threads && s.threads[tid].Consuming? && nonce in s.threads[tid].left && nonce !in consumed
    requires s.store.NonceValid(nonce, s.clock)
    ensures var before := AfterNonces(s, tid, consumed, spent);
            ConsumeStep(before, Consume(tid, nonce)) == AfterNonces(s, tid, consumed + {nonce}, spent[nonce := s.clock])
  {
    var before := AfterNonces(s, tid, consumed, spent);
    assert s.store.nonces - consumed - {nonce} == s.store.nonces - (consumed + {nonce});
    var t := s.threads[tid];
    assert t.left - consumed - {nonce} == t.left - (consumed + {nonce});
    assert t.consumed + consumed + {nonce} == t.consumed + (consumed + {nonce});
  }

  lemma ConsumeInvalid(s: Sys, tid: nat, consumed: set<string>, spent: map<string, int>, nonce: string)
    requires tid in s.threads && s.threads[tid].Consuming? && nonce in s.threads[tid].left && nonce !in consumed
    requires !s.store.NonceValid(nonce, s.clock)
    ensures var before := AfterNonces(s, tid, consumed, spent);
            ConsumeStep(before, Consume(tid, nonce))
            == Fail(s.(store := s.store.(nonces := s.store.nonces - (consumed + {nonce})),
                       history := s.history.(spent := spent)),
                    tid, InvalidNonce, s.threads[tid].consumed + consumed)
  {
    assert s.store.nonces - consumed - {nonce} == s.store.nonces - (consumed + {nonce});
    var before := AfterNonces(s, tid, consumed, spent);
    assert before.threads - {tid} == s.threads - {tid};
  }

  lemma MembersAppend(order: seq<string>)
    requires order != []
    ensures Members(order) == Members(order[..|order| - 1]) + {order[|order| - 1]}
  {
    var init := order[..|order| - 1];
    assert order == init + [order[|order| - 1]];
  }

  lemma {:induction false} ConsumesValid(env: Env, s: Sys, tid: nat, order: seq<string>)
    returns (spent: map<string, int>)
    requires tid in s.threads && s.threads[tid].Consuming? && Members(order) <= s.threads[tid].left
    requires InTurn(s.store, order, s.clock) && AllValid(s.store, order, s.clock)
    ensures Steps(env, s, Consumes(tid, order)) == AfterNonces(s, tid, Members(order), spent)
  {
    hide Store.NonceValid, PushStep, DecisionStep, TokenOpStep, OfferStep, RedeemPreStep, MintPreStep, NonceStep,
         AuthorizeStep, BeginStep, ConsumeStep,
         IssueNextStep, FinishStep, ManageStep, AfterNonces;
    if order == [] {
      spent := s.history.spent;
      assert Members(order) == {};
      NothingConsumed(s, tid);
    } else {
      var init, last := order[..|order| - 1], order[|order| - 1];
      MembersAppend(order);
      assert forall i :: 0 <= i < |init| ==> init[i] == order[i];
      var before := ConsumesValid(env, s, tid, init);
      assert Consumes(tid, order)[..|order| - 1] == Consumes(tid, init);
      assert last in Members(order) && last !in Members(init);
      ConsumeValid(s, tid, Members(init), before, last);
      spent := before[last := s.clock];
    }
  }

  lemma NothingConsumed(s: Sys, tid: nat)
    requires tid in s.threads && s.threads[tid].Consuming?
    ensures AfterNonces(s, tid, {}, s.history.spent) == s
  {
    var t := s.threads[tid];
    assert t.(left := t.left - {}, consumed := t.consumed + {}) == t;
    assert s.threads[tid := t] == s.threads;
    assert s.store.nonces - {} == s.store.nonces;
  }

  /** An order that ends in a nonce that is not valid ends the request. */
  lemma ConsumesInvalid(env: Env, s: Sys, tid: nat, order: seq<string>)
    requires tid in s.threads && s.threads[tid].Consuming? && Members(order) <= s.threads[tid].left
    requires order != [] && InTurn(s.store, order, s.clock) && !s.store.NonceValid(order[|order| - 1], s.clock)
    ensures var after := Steps(env, s, Consumes(tid, order));
            && after.store == s.store.(nonces := s.store.nonces - Members(order)) && after.status == s.status
            && after.threads == s.threads - {tid} && after.history.batches == s.history.batches
            && |after.history.failures| == |s.history.failures| + 1
            && after.history.failures[..|s.history.failures|] == s.history.failures
            && after.history.failures[|s.history.failures|].error == InvalidNonce
  {
    hide Store.NonceValid, PushStep, DecisionStep, TokenOpStep, OfferStep, RedeemPreStep, MintPreStep, NonceStep,
         AuthorizeStep, BeginStep, ConsumeStep,
         IssueNextStep, FinishStep, ManageStep, AfterNonces;
    var init, last := order[..|order| - 1], order[|order| - 1];
    MembersAppend(order);
    assert forall i :: 0 <= i < |init| ==> init[i] == order[i];
    var spent := ConsumesValid(env, s, tid, init);
    assert Consumes(tid, order)[..|order| - 1] == Consumes(tid, init);
    assert last in Members(order) && last !in Members(init);
    ConsumeInvalid(s, tid, Members(init), spent, last);
  }

  // ---- The credentials ---------------------------------------------------------------------------------

  /** What the tries leave: the series they come to, or the failure it ends in. */
  ghost predicate AfterTries(env: Env, s: Sys, tid: nat, made: Result<seq<Made>, CredentialError>,
                             m: Status.ManagerModel, after: Sys)
    requires tid in s.threads && s.threads[tid].Consuming?
  {
    && after.store == s.store && after.status == m && after.clock == s.clock
    && after.history.batches == s.history.batches
    && match made
       case Ok(all) =>
         && after.threads == s.threads[tid := s.threads[tid].(made := all)]
         && after.history.failures == s.history.failures
       case Err(e) =>
         && after.threads == s.threads - {tid}
         && after.history.failures == s.history.failures + [Failure(e, s.threads[tid].consumed)]
  }

  lemma {:induction false} TriesAreSeries(env: Env, s: Sys, tid: nat, attempts: seq<Attempt>)
    requires tid in s.threads && s.threads[tid].Consuming? && s.threads[tid].left == {} && s.threads[tid].made == []
    requires s.threads[tid].prepared.configId in env.issuer.metadata.supported
    requires var p := s.threads[tid].prepared;
             CredentialIssuance.Tried(env.issuer, env.issuer.metadata.supported[p.configId], p.keys, s.status, attempts,
                                      s.clock)
    ensures var p := s.threads[tid].prepared;
            var (made, m) := Series(env.issuer, env.issuer.metadata.supported[p.configId], p.keys, s.status, attempts,
                                    s.clock);
            AfterTries(env, s, tid, made, m, Steps(env, s, Tries(tid, attempts)))
    decreases |attempts|
  {
    hide Possible, Outcome, AfterAttempt, MadeBy, Step, AfterTries;
    if attempts == [] {
      NothingTried(env, s, tid);
    } else {
      var n := |attempts| - 1;
      var t := s.threads[tid];
      var config := env.issuer.metadata.supported[t.prepared.configId];
      TriesAreSeries(env, s, tid, attempts[..n]);
      SeriesMakes(env.issuer, config, t.prepared.keys, s.status, attempts[..n], s.clock);
      assert Tries(tid, attempts)[..n] == Tries(tid, attempts[..n]);
      var (before, m) := Series(env.issuer, config, t.prepared.keys, s.status, attempts[..n], s.clock);
      OneMoreTry(env, s, tid, before.value, m, Steps(env, s, Tries(tid, attempts[..n])), attempts[n]);
    }
  }

  lemma NothingTried(env: Env, s: Sys, tid: nat)
    requires tid in s.threads && s.threads[tid].Consuming? && s.threads[tid].made == []
    ensures Steps(env, s, Tries(tid, [])) == s && AfterTries(env, s, tid, Ok([]), s.status, s)
  {
    hide Step;
    assert s.threads[tid := s.threads[tid].(made := [])] == s.threads;
  }

  /** One more try, after tries that all succeeded. */
  lemma OneMoreTry(env: Env, s: Sys, tid: nat, made: seq<Made>, m: Status.ManagerModel, before: Sys, attempt: Attempt)
    requires tid in s.threads && s.threads[tid].Consuming? && s.threads[tid].left == {}
    requires s.threads[tid].prepared.configId in env.issuer.metadata.supported
    requires |made| < |s.threads[tid].prepared.keys|
    requires AfterTries(env, s, tid, Ok(made), m, before)
    requires var t := s.threads[tid];
             Possible(env.issuer, env.issuer.metadata.supported[t.prepared.configId], t.prepared.keys[|made|], m,
                      attempt, s.clock)
    ensures var t := s.threads[tid];
            var config := env.issuer.metadata.supported[t.prepared.configId];
            var key := t.prepared.keys[|made|];
            LotOk(env.issuer, config, key, attempt, s.clock) &&
            var outcome := match Outcome(env.issuer, config, key, attempt, s.clock)
                           case Err(e) => Err(e)
                           case Ok(c) => Ok(made + [MadeBy(env.issuer, config, key, attempt, s.clock, c)]);
            AfterTries(env, s, tid, outcome, AfterAttempt(env.issuer, config, m, attempt),
                       Step(env, before, IssueNext(tid, attempt)))
  {
    hide LotOk, Outcome, AfterAttempt, MadeBy, Refusal, PushStep, DecisionStep, TokenOpStep, OfferStep, RedeemPreStep,
         MintPreStep, NonceStep,
         AuthorizeStep, BeginStep, ConsumeStep, FinishStep, ManageStep;
    assert before.threads - {tid} == s.threads - {tid};
  }

  // ---- The request --------------------------------------------------------------------------------------

  /** The end of a request in the history. */
  ghost predicate Ended(s: Sys, after: Sys, r: Result<seq<Credential>, CredentialError>) {
    match r
    case Ok(credentials) =>
      && after.history.failures == s.history.failures
      && |after.history.batches| == |s.history.batches| + 1
      && after.history.batches[..|s.history.batches|] == s.history.batches
      && CredentialsOf(after.history.batches[|s.history.batches|].made) == credentials
    case Err(e) =>
      && after.history.batches == s.history.batches
      && |after.history.failures| == |s.history.failures| + 1
      && after.history.failures[..|s.history.failures|] == s.history.failures
      && after.history.failures[|s.history.failures|].error == e
  }

  /** From the first nonce to the last credential. */
  lemma CompletesUndisturbed(env: Env, s: Sys, tid: nat, order: seq<string>, attempts: seq<Attempt>,
                             r: Result<seq<Credential>, CredentialError>, after: Store, m: Status.ManagerModel)
    requires tid in s.threads && s.threads[tid].Consuming? && s.threads[tid].made == []
    requires s.threads[tid].left == s.threads[tid].prepared.nonces
    requires Completes(env.issuer, s.threads[tid].prepared, s.store, s.status, order, attempts, s.clock, r, after, m)
    ensures var end := Step(env, Steps(env, Steps(env, s, Consumes(tid, order)), Tries(tid, attempts)), Finish(tid));
            end.store == after && end.status == m && end.threads == s.threads - {tid} && Ended(s, end, r)
  {
    hide Store.NonceValid, Steps, Step, Members, InTurn, CredentialIssuance.Tried, Series, Consumes;
    var p := s.threads[tid].prepared;
    if exists n :: n in p.nonces && !s.store.NonceValid(n, s.clock) {
      ConsumesInvalid(env, s, tid, order);
      var s2 := Steps(env, s, Consumes(tid, order));
      NoTries(env, s2, tid);
      FinishIs(env, s2, tid);
    } else {
      AllAreValid(s, p, order);
      var spent := ConsumesValid(env, s, tid, order);
      var s2 := AfterNonces(s, tid, Members(order), spent);
      TriesAreSeries(env, s2, tid, attempts);
      var s3 := Steps(env, s2, Tries(tid, attempts));
      assert s2.threads - {tid} == s.threads - {tid} && s3.threads - {tid} == s.threads - {tid};
      var config := env.issuer.metadata.supported[p.configId];
      if Series(env.issuer, config, p.keys, s.status, attempts, s.clock).0.Ok? {
        SeriesMakes(env.issuer, config, p.keys, s.status, attempts, s.clock);
      }
      FinishIs(env, s3, tid);
    }
  }

  lemma AllAreValid(s: Sys, p: Prepared, order: seq<string>)
    requires Members(order) <= p.nonces && forall n :: n in p.nonces ==> s.store.NonceValid(n, s.clock)
    ensures AllValid(s.store, order, s.clock)
  {
    hide Store.NonceValid;
    forall i | 0 <= i < |order| ensures s.store.NonceValid(order[i], s.clock) {
      assert order[i] in Members(order);
    }
  }

  lemma NoTries(env: Env, s: Sys, tid: nat)
    ensures Steps(env, s, Tries(tid, [])) == s
  {
    hide Step;
  }

  lemma FinishIs(env: Env, s: Sys, tid: nat)
    ensures Step(env, s, Finish(tid)) == FinishStep(s, Finish(tid))
  {
    hide PushStep, DecisionStep, TokenOpStep, OfferStep, RedeemPreStep, MintPreStep, NonceStep, AuthorizeStep,
         BeginStep, ConsumeStep,
         IssueNextStep, FinishStep, ManageStep;
  }

  /** Begun, consumed, issued and finished with nothing between, an authorized credential request
      leaves the store, the status manager and the response the endpoint's handling of it leaves. */
  lemma RequestUndisturbed(env: Env, s: Sys, tid: nat, request: CredentialRequest, order: seq<string>,
                           attempts: seq<Attempt>,
                           r: Result<seq<Credential>, CredentialError>, after: Store, m: Status.ManagerModel)
    requires tid in s.threads && s.threads[tid].Authorized?
    requires Handles(env.issuer, request, s.threads[tid].token, s.store, s.status, order, attempts, s.clock, r, after,
                     m)
    ensures var begun := BeginStep(env, s, Begin(tid, request));
            var end := Step(env, Steps(env, Steps(env, begun, Consumes(tid, order)), Tries(tid, attempts)),
                            Finish(tid));
            end.store == after && end.status == m && end.threads == s.threads - {tid} && Ended(s, end, r)
  {
    hide Steps, Step, Completes, Prepare, Consumes, Tries, Store.GrantAt, Store.AfterGrantAt;
    var t := s.threads[tid];
    var begun := BeginStep(env, s, Begin(tid, request));
    var grant := s.store.GrantAt(t.token, s.clock);
    if grant.Some? && Prepare(env.issuer, request, grant.value, s.clock).Ok? {
      CompletesUndisturbed(env, begun, tid, order, attempts, r, after, m);
      assert begun.threads - {tid} == s.threads - {tid};
    } else {
      StaysEnded(env, begun, tid, order, attempts);
    }
  }

  lemma StaysEnded(env: Env, s: Sys, tid: nat, order: seq<string>, attempts: seq<Attempt>)
    requires tid !in s.threads
    ensures Step(env, Steps(env, Steps(env, s, Consumes(tid, order)), Tries(tid, attempts)), Finish(tid)) == s
  {
    hide Steps, Step;
    EndedStays(env, s, tid, Consumes(tid, order));
    EndedStays(env, s, tid, Tries(tid, attempts));
    FinishIs(env, s, tid);
  }
}
