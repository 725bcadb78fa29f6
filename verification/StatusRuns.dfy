/** What holds after any run of calls on the status manager. */
module StatusRuns {
  import opened Wrappers
  import opened RandomDraw
  import opened StatusManagers
  import T = TokenStatusLists

  /** The manager offers no call that clears a revocation. */
  predicate Offered(op: Op) {
    !(op.Update? && op.purpose == Revocation && !op.value)
  }

  /** `states[k]` is the manager after the first `k` calls. */
  ghost predicate Run(states: seq<ManagerModel>, ops: seq<Op>) {
    && |states| == |ops| + 1
    && states[0] == Initial()
    && (forall k :: 0 <= k < |states| ==> Sized(states[k]))
    && (forall k :: 0 <= k < |ops| ==> Offered(ops[k]) && Next(states[k], ops[k], states[k + 1]))
  }

  lemma RunPrefix(states: seq<ManagerModel>, ops: seq<Op>, k: nat)
    requires Run(states, ops) && k <= |ops|
    ensures Run(states[..k + 1], ops[..k])
  {
  }

  // ---- The two formats ------------------------------------------------------

  /** What the calls say about an entry: the last update of it decides. */
  function LastUpdate(ops: seq<Op>, purpose: StatusPurpose, index: nat): bool {
    if ops == [] then false
    else
      var last := ops[|ops| - 1];
      if last.Update? && last.purpose == purpose && last.index == index then last.value
      else LastUpdate(ops[..|ops| - 1], purpose, index)
  }

  /** Both formats of both lists say exactly what the calls said, at every index. */
  lemma {:induction false} ListsFollowUpdates(states: seq<ManagerModel>, ops: seq<Op>, purpose: StatusPurpose,
                                              index: nat)
    requires Run(states, ops) && index < LIST_CAPACITY
    ensures var l := states[|ops|].List(purpose);
            && l.flags[index] == LastUpdate(ops, purpose, index)
            && l.statuses[index] == Code(purpose, LastUpdate(ops, purpose, index))
  {
    if ops != [] {
      var n := |ops| - 1;
      RunPrefix(states, ops, n);
      ListsFollowUpdates(states[..n + 1], ops[..n], purpose, index);
      assert Next(states[n], ops[n], states[n + 1]);
    }
  }

  /** The formats never disagree, and every stored status is one a reader can name. */
  lemma FormatsAgree(states: seq<ManagerModel>, ops: seq<Op>, k: nat, purpose: StatusPurpose, index: nat)
    requires Run(states, ops) && k <= |ops| && index < LIST_CAPACITY
    ensures var l := states[k].List(purpose);
            && (l.flags[index] <==> l.statuses[index] != 0)
            && (purpose == Revocation ==> l.statuses[index] == 0 || l.statuses[index] == 1)
            && (purpose == Suspension ==> l.statuses[index] == 0 || l.statuses[index] == 2)
            && T.TokenStatus.FromByte(l.statuses[index]).Some?
  {
    RunPrefix(states, ops, k);
    ListsFollowUpdates(states[..k + 1], ops[..k], purpose, index);
  }

  /** Revoked is final. */
  lemma {:induction false} RevokedStaysRevoked(states: seq<ManagerModel>, ops: seq<Op>, j: nat, k: nat, index: nat)
    requires Run(states, ops) && j <= k <= |ops| && index < LIST_CAPACITY
    requires states[j].revocation.statuses[index] == 1
    ensures states[k].revocation.statuses[index] == 1 && states[k].revocation.flags[index]
  {
    if j < k {
      RevokedStaysRevoked(states, ops, j, k - 1, index);
      assert Next(states[k - 1], ops[k - 1], states[k]);
    } else {
      FormatsAgree(states, ops, j, Revocation, index);
    }
  }

  /** An mdoc is revoked exactly when some call revoked it; calls on the other lists never matter. */
  lemma {:induction false} MdocFollowsRevocations(states: seq<ManagerModel>, ops: seq<Op>, index: nat)
    requires Run(states, ops) && index < LIST_CAPACITY
    ensures states[|ops|].mdoc.statuses[index] == if Op.RevokeMdoc(index) in ops then 1 else 0
  {
    if ops != [] {
      var n := |ops| - 1;
      RunPrefix(states, ops, n);
      MdocFollowsRevocations(states[..n + 1], ops[..n], index);
      assert ops == ops[..n] + [ops[n]];
      assert Next(states[n], ops[n], states[n + 1]);
    }
  }

  // ---- Allocation -----------------------------------------------------------

  datatype ListName = Credential(purpose: StatusPurpose) | Mdoc

  function Taken(m: ManagerModel, list: ListName): set<nat> {
    match list case Credential(purpose) => m.List(purpose).taken case Mdoc => m.mdoc.taken
  }

  /** The index a call handed out of `list`, if it is an allocation there that succeeded. */
  function HandedOut(op: Op, list: ListName): Option<nat> {
    match op
    case Allocate(purpose, drawn) => if list == Credential(purpose) then drawn else None
    case AllocateMdoc(drawn) => if list == Mdoc then drawn else None
    case _ => None
  }

  function AllHandedOut(ops: seq<Op>, list: ListName): seq<nat> {
    if ops == [] then []
    else
      var rest := AllHandedOut(ops[..|ops| - 1], list);
      match HandedOut(ops[|ops| - 1], list) case Some(i) => rest + [i] case None => rest
  }

  ghost predicate Distinct(s: seq<nat>) {
    forall i, j :: 0 <= i < j < |s| ==> s[i] != s[j]
  }

  lemma TakenStep(m: ManagerModel, op: Op, m': ManagerModel, list: ListName)
    requires Sized(m) && Next(m, op, m')
    ensures match HandedOut(op, list)
            case Some(i) => i < LIST_CAPACITY && i !in Taken(m, list) && Taken(m', list) == Taken(m, list) + {i}
            case None => Taken(m', list) == Taken(m, list)
  {
  }

  /** `out` lists the members of `taken`, each once, all in range. */
  ghost predicate Lists(out: seq<nat>, taken: set<nat>) {
    && Distinct(out)
    && (forall i :: 0 <= i < |out| ==> out[i] < LIST_CAPACITY)
    && taken == (set i | i in out)
    && |taken| == |out|
  }

  lemma AppendFresh(out: seq<nat>, taken: set<nat>, i: nat)
    requires Lists(out, taken) && i !in taken && i < LIST_CAPACITY
    ensures Lists(out + [i], taken + {i})
  {
  }

  /** Over any run, no index of a list is handed out twice, all are in range, and the
      set the list remembers is exactly what was handed out. */
  lemma {:induction false} AllocationsDistinct(states: seq<ManagerModel>, ops: seq<Op>, list: ListName)
    requires Run(states, ops)
    ensures Lists(AllHandedOut(ops, list), Taken(states[|ops|], list))
  {
    hide Lists;
    if ops == [] {
      NothingListed();
    } else {
      var n := |ops| - 1;
      RunPrefix(states, ops, n);
      AllocationsDistinct(states[..n + 1], ops[..n], list);
      TakenStep(states[n], ops[n], states[n + 1], list);
      match HandedOut(ops[n], list)
      case Some(i) => AppendFresh(AllHandedOut(ops[..n], list), Taken(states[n], list), i);
      case None =>
    }
  }

  lemma NothingListed()
    ensures Lists([], {})
  {
  }

  function AllocateOn(list: ListName, drawn: Option<nat>): Op {
    match list case Credential(purpose) => Allocate(purpose, drawn) case Mdoc => AllocateMdoc(drawn)
  }

  lemma FullWhenAllTaken(taken: set<nat>, capacity: nat)
    requires forall i :: i in taken ==> i < capacity
    ensures |taken| >= capacity <==> forall i: nat :: i < capacity ==> i in taken
  {
    SubsetSize(taken, Below(capacity));
    if forall i: nat :: i < capacity ==> i in taken {
      SubsetSize(Below(capacity), taken);
    }
  }

  /** An allocation fails exactly when every index of the list has been handed out. */
  lemma FailsOnlyWhenFull(states: seq<ManagerModel>, ops: seq<Op>, list: ListName, drawn: Option<nat>, m': ManagerModel)
    requires Run(states, ops) && Next(states[|ops|], AllocateOn(list, drawn), m')
    ensures drawn == None <==> forall i: nat :: i < LIST_CAPACITY ==> i in AllHandedOut(ops, list)
  {
    AllocationsDistinct(states, ops, list);
    FullWhenAllTaken(Taken(states[|ops|], list), LIST_CAPACITY);
    DrawnWhenFree(states[|ops|], list, drawn, m');
    assert forall i: nat :: i in Taken(states[|ops|], list) <==> i in AllHandedOut(ops, list);
  }

  lemma DrawnWhenFree(m: ManagerModel, list: ListName, drawn: Option<nat>, m': ManagerModel)
    requires Sized(m) && Next(m, AllocateOn(list, drawn), m')
    requires forall i :: i in Taken(m, list) ==> i < LIST_CAPACITY
    ensures drawn == None <==> |Taken(m, list)| >= LIST_CAPACITY
  {
    FullWhenAllTaken(Taken(m, list), LIST_CAPACITY);
  }
}
