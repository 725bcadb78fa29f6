/** The status manager: both list formats per purpose, and the mdoc revocation list. */
module StatusManagers {
  import opened Wrappers
  import opened RandomDraw
  import S = StatusLists2021
  import T = TokenStatusLists

  datatype StatusPurpose = Revocation | Suspension
  {
    function ListId(): string {
      match this case Revocation => "revocation" case Suspension => "suspension"
    }
  }

  datatype ManagerError = ListNotFound(id: string) | ListError | NoAvailableIndex

  /** Capacity of every list, in credentials. */
  const LIST_CAPACITY: nat := 100_000

  // ---- What a list holds, as a value --------------------------------------

  datatype ListModel = ListModel(flags: seq<bool>, statuses: seq<bv8>, taken: set<nat>)

  datatype MdocModel = MdocModel(statuses: seq<bv8>, taken: set<nat>)

  datatype ManagerModel = ManagerModel(revocation: ListModel, suspension: ListModel, mdoc: MdocModel)
  {
    function List(purpose: StatusPurpose): ListModel {
      match purpose case Revocation => revocation case Suspension => suspension
    }

    function With(purpose: StatusPurpose, l: ListModel): ManagerModel {
      match purpose case Revocation => this.(revocation := l) case Suspension => this.(suspension := l)
    }
  }

  function EmptyList(): ListModel {
    ListModel(seq(LIST_CAPACITY, _ => false), seq(LIST_CAPACITY, _ => 0), {})
  }

  function Initial(): ManagerModel {
    ManagerModel(EmptyList(), EmptyList(), MdocModel(seq(LIST_CAPACITY, _ => 0), {}))
  }

  ghost predicate Sized(m: ManagerModel) {
    && |m.revocation.flags| == |m.revocation.statuses| == LIST_CAPACITY
    && |m.suspension.flags| == |m.suspension.statuses| == LIST_CAPACITY
    && |m.mdoc.statuses| == LIST_CAPACITY
  }

  /** One call on the manager; an allocation carries the index it handed out, if any. */
  datatype Op =
    | Allocate(purpose: StatusPurpose, drawn: Option<nat>)
    | Update(purpose: StatusPurpose, index: nat, value: bool)
    | AllocateMdoc(drawn: Option<nat>)
    | RevokeMdoc(index: nat)

  /** The byte a Token Status List stores for a set or cleared entry of this purpose. */
  function Code(purpose: StatusPurpose, value: bool): bv8 {
    if !value then 0 else if purpose == Revocation then 1 else 2
  }

  ghost predicate Drawn(before: set<nat>, drawn: Option<nat>, after: set<nat>) {
    match drawn
    case Some(i) => i < LIST_CAPACITY && i !in before && after == before + {i}
    case None => |before| >= LIST_CAPACITY && after == before
  }

  ghost predicate Next(m: ManagerModel, op: Op, m': ManagerModel)
    requires Sized(m)
  {
    match op
    case Allocate(purpose, drawn) =>
      var taken := m'.List(purpose).taken;
      && Drawn(m.List(purpose).taken, drawn, taken)
      && m' == m.With(purpose, m.List(purpose).(taken := taken))
    case Update(purpose, index, value) =>
      m' == if index < LIST_CAPACITY then
              m.With(purpose, m.List(purpose).(flags := m.List(purpose).flags[index := value],
                                               statuses := m.List(purpose).statuses[index := Code(purpose, value)]))
            else m
    case AllocateMdoc(drawn) =>
      && Drawn(m.mdoc.taken, drawn, m'.mdoc.taken)
      && m' == m.(mdoc := m.mdoc.(taken := m'.mdoc.taken))
    case RevokeMdoc(index) =>
      m' == if index < LIST_CAPACITY then m.(mdoc := m.mdoc.(statuses := m.mdoc.statuses[index := 1])) else m
  }

  // ---- The classes ----------------------------------------------------------

  class ManagedList {
    const sl2021: S.StatusList
    const tsl: T.TokenStatusList
    const purpose: StatusPurpose
    const capacity: nat
    var taken: set<nat>

    ghost predicate Valid()
      reads this, sl2021.bits, tsl.data
    {
      && sl2021.Valid() && tsl.Valid() && sl2021.bits != tsl.data
      && capacity == sl2021.size == tsl.capacity == LIST_CAPACITY && tsl.bitsPerStatus == 2
    }

    ghost function Model(): ListModel
      requires Valid()
      reads this, sl2021.bits, tsl.data
    {
      ListModel(sl2021.Flags(), tsl.Statuses(), taken)
    }

    constructor (purpose: StatusPurpose)
      ensures Valid() && fresh(sl2021.bits) && fresh(tsl.data)
      ensures this.purpose == purpose && Model() == EmptyList()
    {
      sl2021 := new S.StatusList.New(LIST_CAPACITY);
      tsl := new T.TokenStatusList.Zeroed(LIST_CAPACITY, 2);
      this.purpose, capacity, taken := purpose, LIST_CAPACITY, {};
    }
  }

  class MdocList {
    const tsl: T.TokenStatusList
    var taken: set<nat>

    ghost predicate Valid()
      reads this, tsl.data
    {
      tsl.Valid() && tsl.capacity == LIST_CAPACITY && tsl.bitsPerStatus == 1
    }

    ghost function Model(): MdocModel
      requires Valid()
      reads this, tsl.data
    {
      MdocModel(tsl.Statuses(), taken)
    }

    constructor ()
      ensures Valid() && fresh(tsl.data)
      ensures Model() == MdocModel(seq(LIST_CAPACITY, _ => 0), {})
    {
      tsl := new T.TokenStatusList.Zeroed(LIST_CAPACITY, 1);
      taken := {};
    }
  }

  class StatusManager {
    const lists: map<string, ManagedList>
    const mdoc: MdocList

    ghost function Repr(): set<object>
      requires "revocation" in lists && "suspension" in lists
    {
      var r, s := lists["revocation"], lists["suspension"];
      {r, r.sl2021.bits, r.tsl.data, s, s.sl2021.bits, s.tsl.data, mdoc, mdoc.tsl.data}
    }

    ghost predicate Valid()
      reads if "revocation" in lists && "suspension" in lists then Repr() else {}
    {
      && lists.Keys == {"revocation", "suspension"}
      && var r, s := lists["revocation"], lists["suspension"];
      && r.Valid() && s.Valid() && mdoc.Valid()
      && r != s && r.purpose == Revocation && s.purpose == Suspension
      && r.sl2021.bits != s.sl2021.bits && r.sl2021.bits != s.tsl.data && r.sl2021.bits != mdoc.tsl.data
      && r.tsl.data != s.sl2021.bits && r.tsl.data != s.tsl.data && r.tsl.data != mdoc.tsl.data
      && s.sl2021.bits != mdoc.tsl.data && s.tsl.data != mdoc.tsl.data
    }

    ghost function Model(): (m: ManagerModel)
      requires Valid()
      reads Repr()
      ensures Sized(m)
    {
      ManagerModel(lists["revocation"].Model(), lists["suspension"].Model(), mdoc.Model())
    }

    constructor ()
      ensures Valid() && fresh(Repr())
      ensures Model() == Initial()
    {
      var r := new ManagedList(Revocation);
      var s := new ManagedList(Suspension);
      lists := map["revocation" := r, "suspension" := s];
      mdoc := new MdocList();
    }

    /** A status index for a new credential, drawn at random from the unused ones. */
    method AllocateEntry(purpose: StatusPurpose, draw: nat -> nat, start: nat) returns (r: Result<nat, ManagerError>)
      requires Valid() && Fair(draw, LIST_CAPACITY)
      modifies Repr()
      ensures Valid()
      ensures r.Ok? || r == Err(NoAvailableIndex)
      ensures Next(old(Model()), Allocate(purpose, if r.Ok? then Some(r.value) else None), Model())
    {
      var managed := lists[purpose.ListId()];
      if |managed.taken| >= managed.capacity {
        return Err(NoAvailableIndex);
      }
      var index, _ := DrawFresh(draw, start, managed.taken, managed.capacity);
      managed.taken := managed.taken + {index};
      r := Ok(index);
    }

    method Revoke(index: nat) returns (r: Result<(), ManagerError>)
      requires Valid()
      modifies Repr()
      ensures Valid()
      ensures r == if index < LIST_CAPACITY then Ok(()) else Err(ListError)
      ensures Next(old(Model()), Update(Revocation, index, true), Model())
    {
      r := UpdateStatus("revocation", index, true);
    }

    method Suspend(index: nat) returns (r: Result<(), ManagerError>)
      requires Valid()
      modifies Repr()
      ensures Valid()
      ensures r == if index < LIST_CAPACITY then Ok(()) else Err(ListError)
      ensures Next(old(Model()), Update(Suspension, index, true), Model())
    {
      r := UpdateStatus("suspension", index, true);
    }

    method Reinstate(index: nat) returns (r: Result<(), ManagerError>)
      requires Valid()
      modifies Repr()
      ensures Valid()
      ensures r == if index < LIST_CAPACITY then Ok(()) else Err(ListError)
      ensures Next(old(Model()), Update(Suspension, index, false), Model())
    {
      r := UpdateStatus("suspension", index, false);
    }

    /** Update one entry in both formats. */
    method UpdateStatus(listId: string, index: nat, value: bool) returns (r: Result<(), ManagerError>)
      requires Valid()
      modifies Repr()
      ensures Valid()
      ensures listId !in {"revocation", "suspension"} ==> r == Err(ListNotFound(listId)) && Model() == old(Model())
      ensures listId in {"revocation", "suspension"} ==>
                && r == (if index < LIST_CAPACITY then Ok(()) else Err(ListError))
                && Next(old(Model()), Update(if listId == "revocation" then Revocation else Suspension, index, value),
                        Model())
    {
      if listId !in lists {
        return Err(ListNotFound(listId));
      }
      var managed := lists[listId];
      var set2021 := managed.sl2021.Set(index, value);
      if set2021.Err? {
        return Err(ListError);
      }
      var status := if !value then T.Valid else if listId == "revocation" then T.Invalid else T.Suspended;
      var setToken := managed.tsl.SetStatus(index, status);
      if setToken.Err? {
        return Err(ListError);
      }
      r := Ok(());
    }

    method AllocateMdocIndex(draw: nat -> nat, start: nat) returns (r: Result<nat, ManagerError>)
      requires Valid() && Fair(draw, LIST_CAPACITY)
      modifies Repr()
      ensures Valid()
      ensures r.Ok? || r == Err(NoAvailableIndex)
      ensures Next(old(Model()), AllocateMdoc(if r.Ok? then Some(r.value) else None), Model())
    {
      if |mdoc.taken| >= LIST_CAPACITY {
        return Err(NoAvailableIndex);
      }
      var index, _ := DrawFresh(draw, start, mdoc.taken, LIST_CAPACITY);
      mdoc.taken := mdoc.taken + {index};
      r := Ok(index);
    }

    method RevokeMdoc(index: nat) returns (r: Result<(), ManagerError>)
      requires Valid()
      modifies Repr()
      ensures Valid()
      ensures r == if index < LIST_CAPACITY then Ok(()) else Err(ListError)
      ensures Next(old(Model()), Op.RevokeMdoc(index), Model())
    {
      var done := mdoc.tsl.Set(index, 1);
      r := if done.Ok? then Ok(()) else Err(ListError);
    }
  }
}
