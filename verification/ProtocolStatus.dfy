/** Invariants of the protocol: status indices, each drawn for one credential. */
module ProtocolStatus {
  import opened Wrappers
  import opened IssuerStore
  import opened Authorization
  import opened CredentialIssuance
  import opened CredentialContents
  import opened CredentialEndpoint
  import opened Protocol
  import opened ProtocolTokens
  import opened ProtocolIssuance
  import Jws
  import ResourceAccess
  import Status = StatusManagers
  import StatusRuns

  /** Every index that was drawn is taken in its list. */
  ghost predicate DrawnTaken(m: Status.ManagerModel, drawn: map<Slot, Owner>) {
    forall slot :: slot in drawn ==> slot.index in StatusRuns.Taken(m, slot.list)
  }

  predicate SlotIs(drawn: map<Slot, Owner>, slot: Slot, owner: Owner) {
    slot in drawn && drawn[slot] == owner
  }

  /** The credentials of a request are the ones their indices were drawn for, in order. */
  ghost predicate OwnSlots(issuer: Issuer, configId: string, made: seq<Made>, nonces: set<string>,
                           drawn: map<Slot, Owner>) {
    configId in issuer.metadata.supported
    && forall i :: 0 <= i < |made| ==> SlotIs(drawn, Slot(ListOf(issuer.metadata.supported[configId]), made[i].index),
                                              Owner(nonces, i))
  }

  ghost predicate ThreadSlots(issuer: Issuer, t: Thread, drawn: map<Slot, Owner>) {
    t.Consuming? && t.made != [] ==> OwnSlots(issuer, t.prepared.configId, t.made, t.prepared.nonces, drawn)
  }

  ghost predicate BatchSlots(issuer: Issuer, b: Batch, drawn: map<Slot, Owner>) {
    b.made != [] ==> OwnSlots(issuer, b.configId, b.made, b.nonces, drawn)
  }

  ghost predicate SlotInv(issuer: Issuer, status: Status.ManagerModel, drawn: map<Slot, Owner>,
                          threads: map<nat, Thread>, batches: seq<Batch>) {
    && Status.Sized(status) && DrawnTaken(status, drawn)
    && (forall tid :: tid in threads ==> ThreadSlots(issuer, threads[tid], drawn))
    && (forall k :: 0 <= k < |batches| ==> BatchSlots(issuer, batches[k], drawn))
  }

  ghost predicate Slots(env: Env, s: Sys) {
    SlotInv(env.issuer, s.status, s.history.drawn, s.threads, s.history.batches)
  }

  // ---- Each step keeps them ------------------------------------------------------------------------

  /** One more index drawn: what was drawn before stays. */
  lemma SlotsGrow(issuer: Issuer, status: Status.ManagerModel, status': Status.ManagerModel, drawn: map<Slot, Owner>,
                  slot: Slot, owner: Owner,
                  threads: map<nat, Thread>, batches: seq<Batch>)
    requires SlotInv(issuer, status, drawn, threads, batches) && slot !in drawn && Status.Sized(status')
    requires DrawnTaken(status', drawn[slot := owner])
    ensures SlotInv(issuer, status', drawn[slot := owner], threads, batches)
  {
    var drawn' := drawn[slot := owner];
    forall s, o | SlotIs(drawn, s, o) ensures SlotIs(drawn', s, o) {
    }
  }

  lemma DrawTakes(m: Status.ManagerModel, list: StatusRuns.ListName, index: nat, drawn: map<Slot, Owner>, owner: Owner)
    requires Status.Sized(m) && DrawnTaken(m, drawn) && CanDraw(m, list, Some(index))
    ensures var m' := AfterDraw(m, list, Some(index));
            Status.Sized(m') && Slot(list, index) !in drawn && DrawnTaken(m', drawn[Slot(list, index) := owner])
  {
  }

  /** What a try at a credential does to the indices. */
  lemma TriedKeepsSlots(env: Env, s: Sys, tid: nat, attempt: Attempt)
    requires Slots(env, s) && Protocol.Issuable(env, s, tid)
    requires var t := s.threads[tid];
             Possible(env.issuer, env.issuer.metadata.supported[t.prepared.configId], t.prepared.keys[|t.made|],
                      s.status, attempt, s.clock)
    ensures var tried := Protocol.Tried(env, s, tid, attempt);
            var t := s.threads[tid];
            var config := env.issuer.metadata.supported[t.prepared.configId];
            && SlotInv(env.issuer, tried.status, tried.history.drawn, s.threads, s.history.batches)
            && (Refusal(env.issuer, config).None? && attempt.drawn.Some? ==>
                  SlotIs(tried.history.drawn, Slot(ListOf(config), attempt.drawn.value),
                         Owner(t.prepared.nonces, |t.made|)))
  {
    hide SlotInv, LotOk, AfterDraw, CanDraw, ListOf, Refusal;
    var t := s.threads[tid];
    var config := env.issuer.metadata.supported[t.prepared.configId];
    SlotParts(env, s);
    if Refusal(env.issuer, config).None? {
      if attempt.drawn.Some? {
        var index, owner := attempt.drawn.value, Owner(t.prepared.nonces, |t.made|);
        DrawTakes(s.status, ListOf(config), index, s.history.drawn, owner);
        SlotsGrow(env.issuer, s.status, AfterDraw(s.status, ListOf(config), Some(index)), s.history.drawn,
                  Slot(ListOf(config), index), owner,
                  s.threads, s.history.batches);
      } else {
        NoDraw(s.status, ListOf(config));
      }
    }
  }

  lemma SlotParts(env: Env, s: Sys)
    requires Slots(env, s)
    ensures Status.Sized(s.status) && DrawnTaken(s.status, s.history.drawn)
  {
  }

  lemma NoDraw(m: Status.ManagerModel, list: StatusRuns.ListName)
    ensures AfterDraw(m, list, None) == m
  {
  }

  lemma ThreadSlotAdded(issuer: Issuer, t: Thread, m: Made, drawn: map<Slot, Owner>)
    requires t.Consuming? && ThreadSlots(issuer, t, drawn) && t.prepared.configId in issuer.metadata.supported
    requires SlotIs(drawn, Slot(ListOf(issuer.metadata.supported[t.prepared.configId]), m.index),
                    Owner(t.prepared.nonces, |t.made|))
    ensures ThreadSlots(issuer, t.(made := t.made + [m]), drawn)
  {
    hide ListOf, SlotIs;
  }

  /** Threads may go, or take the place of another with slots of their own. */
  lemma ThreadsChange(issuer: Issuer, status: Status.ManagerModel, drawn: map<Slot, Owner>, threads: map<nat, Thread>,
                      batches: seq<Batch>,
                      after: map<nat, Thread>)
    requires SlotInv(issuer, status, drawn, threads, batches)
    requires forall tid :: tid in after ==> (tid in threads
                                             && after[tid] == threads[tid]) || ThreadSlots(issuer, after[tid], drawn)
    ensures SlotInv(issuer, status, drawn, after, batches)
  {
    hide ThreadSlots, BatchSlots, DrawnTaken;
  }

  lemma IssueNextKeepsSlots(env: Env, s: Sys, op: Op)
    requires Slots(env, s) && op.IssueNext?
    ensures Slots(env, IssueNextStep(env, s, op))
  {
    hide SlotInv, ThreadSlots, SlotIs, Protocol.Tried, Possible, Outcome, Refusal, ListOf;
    if Protocol.Issuable(env, s, op.tid) {
      var t := s.threads[op.tid];
      var config := env.issuer.metadata.supported[t.prepared.configId];
      var key := t.prepared.keys[|t.made|];
      if Possible(env.issuer, config, key, s.status, op.attempt, s.clock) {
        TriedKeepsSlots(env, s, op.tid, op.attempt);
        var tried := Protocol.Tried(env, s, op.tid, op.attempt);
        TriedSame(env, s, op.tid, op.attempt);
        PossibleFits(env.issuer, config, key, s.status, op.attempt, s.clock);
        var after := IssueNextStep(env, s, op);
        if Outcome(env.issuer, config, key, op.attempt, s.clock).Ok? {
          var made := MadeBy(env.issuer, config, key, op.attempt, s.clock,
                             Outcome(env.issuer, config, key, op.attempt, s.clock).value);
          OutcomeDraws(env.issuer, config, key, op.attempt, s.clock);
          ThreadHasSlots(env.issuer, tried.status, tried.history.drawn, s.threads, s.history.batches, op.tid);
          ThreadSlotAdded(env.issuer, t, made, tried.history.drawn);
        }
        ThreadsChange(env.issuer, tried.status, tried.history.drawn, s.threads, s.history.batches, after.threads);
      }
    }
  }

  lemma TriedSame(env: Env, s: Sys, tid: nat, attempt: Attempt)
    requires Protocol.Issuable(env, s, tid)
    ensures var tried := Protocol.Tried(env, s, tid, attempt);
            tried.threads == s.threads && tried.history.batches == s.history.batches
  {
  }

  lemma OutcomeDraws(issuer: Issuer, config: Configuration, key: Jws.Jwk, attempt: Attempt, now: int)
    requires LotOk(issuer, config, key, attempt, now) && Outcome(issuer, config, key, attempt, now).Ok?
    ensures Refusal(issuer, config).None? && attempt.drawn.Some?
  {
  }

  lemma ThreadHasSlots(issuer: Issuer, status: Status.ManagerModel, drawn: map<Slot, Owner>, threads: map<nat, Thread>,
                       batches: seq<Batch>, tid: nat)
    requires SlotInv(issuer, status, drawn, threads, batches) && tid in threads
    ensures ThreadSlots(issuer, threads[tid], drawn)
  {
  }

  lemma FinishKeepsSlots(env: Env, s: Sys, op: Op)
    requires Slots(env, s) && Issuing(env, s) && op.Finish?
    ensures Slots(env, FinishStep(s, op))
  {
    hide OwnSlots, DrawnTaken, BatchOk, FailureOk, FromProofs, Accessed, Entitled, Bound, MadeFor;
    var after := FinishStep(s, op);
    if after != s {
      var t := s.threads[op.tid];
      assert ThreadOk(env, t, s.history, s.clock);
      assert t.consumed == t.prepared.nonces;
      assert ThreadSlots(env.issuer, t, s.history.drawn);
    }
  }

  lemma StatusChanges(issuer: Issuer, status: Status.ManagerModel, status': Status.ManagerModel,
                      drawn: map<Slot, Owner>,
                      threads: map<nat, Thread>, batches: seq<Batch>)
    requires SlotInv(issuer, status, drawn, threads, batches) && Status.Sized(status')
    requires forall list :: StatusRuns.Taken(status', list) == StatusRuns.Taken(status, list)
    ensures SlotInv(issuer, status', drawn, threads, batches)
  {
    hide ThreadSlots, BatchSlots, StatusRuns.Taken;
  }

  lemma ManageKeepsSlots(env: Env, s: Sys, op: Op)
    requires Slots(env, s) && op.Manage?
    ensures Slots(env, ManageStep(s, op))
  {
    hide SlotInv, AfterCall, StatusRuns.Taken, StatusRuns.Offered;
    SlotParts(env, s);
    forall list ensures Status.Sized(AfterCall(s.status, op.call))
    && StatusRuns.Taken(AfterCall(s.status, op.call), list) == StatusRuns.Taken(s.status, list) {
      CallTakesNothing(s.status, op.call, list);
    }
    assert StatusRuns.Taken(AfterCall(s.status, op.call), StatusRuns.Mdoc)
           == StatusRuns.Taken(s.status, StatusRuns.Mdoc);
    StatusChanges(env.issuer, s.status, AfterCall(s.status, op.call), s.history.drawn, s.threads, s.history.batches);
  }

  /** No call of the administration hands out an index. */
  lemma CallTakesNothing(m: Status.ManagerModel, call: Status.Op, list: StatusRuns.ListName)
    requires Status.Sized(m)
    ensures Status.Sized(AfterCall(m, call)) && StatusRuns.Taken(AfterCall(m, call), list) == StatusRuns.Taken(m, list)
  {
  }

  /** The indices stay as they were, and each consuming thread is as it was or has made nothing. */
  lemma OtherStepsKeepSlots(env: Env, s: Sys, op: Op)
    requires Slots(env, s) && !op.IssueNext? && !op.Finish? && !op.Manage?
    ensures Slots(env, Step(env, s, op))
  {
    hide OwnSlots, SlotInv, Step;
    SlotsUntouched(env, s, op);
    QuietThreads(env, s, op);
    var after := Step(env, s, op);
    forall tid | tid in after.threads
      ensures || (tid in s.threads && after.threads[tid] == s.threads[tid])
              || ThreadSlots(env.issuer, after.threads[tid], s.history.drawn)
    {
      if tid in s.threads {
        ThreadHasSlots(env.issuer, s.status, s.history.drawn, s.threads, s.history.batches, tid);
      }
    }
    ThreadsChange(env.issuer, s.status, s.history.drawn, s.threads, s.history.batches, after.threads);
  }

  lemma SlotsUntouched(env: Env, s: Sys, op: Op)
    requires !op.IssueNext? && !op.Finish? && !op.Manage?
    ensures SameStatus(s, Step(env, s, op)) && Step(env, s, op).history.batches == s.history.batches
  {
    hide PushStep, DecisionStep, TokenOpStep, OfferStep, NonceStep, RedeemPreStep, MintPreStep, AuthorizeStep,
         BeginStep, ConsumeStep,
         IssueNextStep, FinishStep, ManageStep, SameOffers, SameCodes, SameStatus;
    if op.Tick? || op.Push? || op.Decision? || op.Token? { CodeStepsLeaveOffers(env, s, op); }
    if op.Offer? { OfferLeaves(env, s, op); }
    if op.Nonce? { NonceLeaves(env, s, op); }
    if op.RedeemPre? { RedeemPreLeaves(env, s, op); }
    if op.MintPre? { MintPreLeaves(env, s, op); }
    if op.Authorize? { AuthorizeLeaves(env, s, op); }
    if op.Begin? { BeginLeaves(env, s, op); }
    if op.Consume? { ConsumeLeaves(env, s, op); }
  }

  /** Outside issuing, a thread that has made something is as it was but for its nonces. */
  predicate SameMade(threads: map<nat, Thread>, tid: nat, t: Thread) {
    || (t.Consuming? ==> t.made == [])
    || (tid in threads && threads[tid].Consuming? && t.Consuming? && t.made == threads[tid].made
        && t.prepared == threads[tid].prepared)
  }

  ghost predicate AllSameMade(s: Sys, after: Sys) {
    forall tid :: tid in after.threads ==> SameMade(s.threads, tid, after.threads[tid])
  }

  lemma QuietThreads(env: Env, s: Sys, op: Op)
    requires !op.IssueNext? && !op.Finish? && !op.Manage?
    ensures AllSameMade(s, Step(env, s, op))
  {
    hide PushStep, DecisionStep, TokenOpStep, OfferStep, NonceStep, RedeemPreStep, MintPreStep, AuthorizeStep,
         BeginStep, ConsumeStep,
         IssueNextStep, FinishStep, ManageStep, SameOffers, SameCodes, SameEnded, AllSameMade;
    if op.Tick? || op.Push? || op.Decision? || op.Token? {
      CodeStepsLeaveOffers(env, s, op);
      ThreadsSame(s, Step(env, s, op));
    }
    if op.Offer? { OfferLeaves(env, s, op); ThreadsSame(s, OfferStep(env, s, op)); }
    if op.Nonce? { NonceLeaves(env, s, op); ThreadsSame(s, NonceStep(s, op)); }
    if op.RedeemPre? || op.MintPre? { MintingThreads(s, op); }
    if op.Authorize? || op.Begin? || op.Consume? { RequestThreads(env, s, op); }
  }

  lemma ThreadsSame(s: Sys, after: Sys)
    requires after.threads == s.threads
    ensures AllSameMade(s, after)
  {
  }

  lemma RequestThreads(env: Env, s: Sys, op: Op)
    ensures op.Authorize? ==> AllSameMade(s, AuthorizeStep(env, s, op))
    ensures op.Begin? ==> AllSameMade(s, BeginStep(env, s, op))
    ensures op.Consume? ==> AllSameMade(s, ConsumeStep(s, op))
  {
    hide AuthorizeStep, BeginStep, ConsumeStep, ResourceAccess.Authorize, Prepare, Store.GrantAt;
    if op.Authorize? { AuthorizeOutcome(env, s, op); }
    if op.Begin? { BeginOutcome(env, s, op); }
    if op.Consume? { ConsumeOutcome(s, op); }
  }

  lemma MintingThreads(s: Sys, op: Op)
    ensures op.RedeemPre? ==> AllSameMade(s, RedeemPreStep(s, op))
    ensures op.MintPre? ==> AllSameMade(s, MintPreStep(s, op))
  {
  }

  lemma StepKeepsSlots(env: Env, s: Sys, op: Op)
    requires Slots(env, s) && Issuing(env, s)
    ensures Slots(env, Step(env, s, op))
  {
    hide Slots, Issuing, PushStep, DecisionStep, TokenOpStep, OfferStep, NonceStep, RedeemPreStep, MintPreStep,
         AuthorizeStep, BeginStep,
         ConsumeStep, IssueNextStep, FinishStep, ManageStep;
    if op.IssueNext? { IssueNextKeepsSlots(env, s, op); }
    if op.Finish? { FinishKeepsSlots(env, s, op); }
    if op.Manage? { ManageKeepsSlots(env, s, op); }
    if !op.IssueNext? && !op.Finish? && !op.Manage? { OtherStepsKeepSlots(env, s, op); }
  }

  // ---- What they mean --------------------------------------------------------------------------------

  /** Two credentials in one list have different indices, however requests interleave. */
  lemma IndicesDiffer(env: Env, s: Sys, j: nat, i: nat, k: nat, l: nat)
    requires Slots(env, s) && Nonces(s) && Issuing(env, s)
    requires j < |s.history.batches| && i < |s.history.batches[j].made| && k < |s.history.batches|
    requires l < |s.history.batches[k].made|
    requires (j, i) != (k, l)
    requires s.history.batches[j].configId in env.issuer.metadata.supported
    requires s.history.batches[k].configId in env.issuer.metadata.supported
    requires ListOf(env.issuer.metadata.supported[s.history.batches[j].configId])
             == ListOf(env.issuer.metadata.supported[s.history.batches[k].configId])
    ensures s.history.batches[j].made[i].index != s.history.batches[k].made[l].index
  {
    hide ListOf, Slots, Nonces, Issuing;
    BatchHasSlots(env, s, j, i);
    BatchHasSlots(env, s, k, l);
    BatchesOwnNonces(env, s, j, k);
  }

  lemma BatchHasSlots(env: Env, s: Sys, k: nat, i: nat)
    requires Slots(env, s) && k < |s.history.batches| && i < |s.history.batches[k].made|
    requires s.history.batches[k].configId in env.issuer.metadata.supported
    ensures var b := s.history.batches[k];
            SlotIs(s.history.drawn, Slot(ListOf(env.issuer.metadata.supported[b.configId]), b.made[i].index),
                   Owner(b.nonces, i))
  {
    hide ListOf, DrawnTaken, ThreadSlots, SlotIs;
    assert BatchSlots(env.issuer, s.history.batches[k], s.history.drawn);
  }

  /** Different batches consumed different nonces, and each some. */
  lemma BatchesOwnNonces(env: Env, s: Sys, j: nat, k: nat)
    requires Nonces(s) && Issuing(env, s) && j < |s.history.batches| && k < |s.history.batches|
    ensures j != k ==> s.history.batches[j].nonces != s.history.batches[k].nonces
  {
    hide AllSpent, ThreadsApart, ThreadsBatchesApart, ThreadOk, FailureOk, Proves, Genuine, Entitled, Accessed, Bound;
    var b, c := s.history.batches[j], s.history.batches[k];
    assert BatchOk(env, b, s.history, s.clock) && BatchOk(env, c, s.history, s.clock);
    if j < k {
      assert b.nonces !! c.nonces;
    }
    if k < j {
      assert c.nonces !! b.nonces;
    }
  }
}
