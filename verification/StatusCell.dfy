/**
 The status subresource that controller and proxy share.  Both sides read the whole status, change their own
 part and write the whole status back; the API server accepts a write only for the version that was read.
 */
module StatusCell {
  import opened Types
  import opened Scaling
  import opened Reconciling
  import opened ReconcileLaws

  /** What an accepted write meant to change. */
  datatype Write =
    | ByProxy(desired: ServiceState)
    | ByController(state: ServiceState, components: seq<ComponentStatus>)

  datatype Cell = Cell(status: Status, version: nat, log: seq<Write>)

  const FRESH := Cell(Status(Unset, Unset, []), 0, [])

  // ------------------------------------------------------------ the two edits

  /** The controller's edit of what it fetched, for the readiness it observed. */
  function ControllerEdit(st: Status, statuses: seq<ComponentStatus>): Status {
    Status(st.desired, NextState(st.desired, st.state, AllReady(statuses)), statuses)
  }

  /** The proxy's edit of what it fetched. */
  function ProxyEdit(st: Status, desired: ServiceState): Status {
    st.(desired := desired)
  }

  /** The status write of a reconcile that succeeds is the controller's edit. */
  lemma ReconcileIsControllerEdit(
    ns: string, cs: seq<Component>, levels: Levels, faults: Faults, st: Status, o: Objects)
    requires LevelsOf(cs, levels) && Reconcile(ns, cs, levels, faults, st, o).requeue != Failed
    ensures Reconcile(ns, cs, levels, faults, st, o).status == ControllerEdit(st, Observe(ns, cs, faults.unreadable, o))
  {
    CompositeStep(ns, cs, levels, faults, st, o);
  }

  // ------------------------------------------------------------ compare and swap

  function Put(cell: Cell, version: nat, status: Status, w: Write): Cell {
    if version == cell.version then Cell(status, version + 1, cell.log + [w]) else cell
  }

  function PutByController(cell: Cell, version: nat, fetched: Status, statuses: seq<ComponentStatus>): Cell {
    var edited := ControllerEdit(fetched, statuses);
    Put(cell, version, edited, ByController(edited.state, statuses))
  }

  function PutByProxy(cell: Cell, version: nat, fetched: Status, desired: ServiceState): Cell {
    Put(cell, version, ProxyEdit(fetched, desired), ByProxy(desired))
  }

  /** Some other writer changes metadata or spec. */
  function Touched(cell: Cell): Cell {
    cell.(version := cell.version + 1)
  }

  // ------------------------------------------------------------ what the writes add up to

  /** The status as two independent registers, one per writer, each holding its last accepted write. */
  function Replay(log: seq<Write>): Status {
    if log == [] then FRESH.status else
    var before, last := Replay(log[..|log| - 1]), log[|log| - 1];
    match last
    case ByProxy(desired) => before.(desired := desired)
    case ByController(state, components) => before.(state := state, components := components)
  }

  /** What the stored state says about the stored components. */
  ghost predicate Truthful(st: Status) {
    && (st.state == Awake ==> AllReady(st.components))
    && (st.state == Waking ==> !AllReady(st.components))
    && (st.state == Unset || st.state == Sleeping || st.state == Waking || st.state == Awake)
  }

  ghost predicate CellOk(cell: Cell) {
    Truthful(cell.status) && cell.status == Replay(cell.log)
  }

  /** A fetched copy is current as long as its version is. */
  ghost predicate FetchedOk(cell: Cell, version: nat, fetched: Status) {
    version <= cell.version && (version == cell.version ==> fetched == cell.status)
  }

  /** Later cells only add writes, and a version names one status. */
  ghost predicate Advances(a: Cell, b: Cell) {
    a.version <= b.version && (a.version == b.version ==> a == b) && a.log <= b.log
  }

  lemma ReplaySnoc(log: seq<Write>, w: Write)
    ensures Replay(log + [w]) ==
            match w
            case ByProxy(desired) => Replay(log).(desired := desired)
            case ByController(state, components) => Replay(log).(state := state, components := components)
  {
    assert (log + [w])[..|log|] == log;
  }

  lemma FetchedStays(a: Cell, b: Cell, version: nat, fetched: Status)
    requires FetchedOk(a, version, fetched) && Advances(a, b)
    ensures FetchedOk(b, version, fetched)
  {
  }

  /** The controller writes back the desired state it read, and still nobody's write is lost. */
  lemma ControllerWrites(cell: Cell, version: nat, fetched: Status, statuses: seq<ComponentStatus>)
    requires CellOk(cell) && FetchedOk(cell, version, fetched)
    ensures var after := PutByController(cell, version, fetched, statuses); CellOk(after) && Advances(cell, after)
  {
    var edited := ControllerEdit(fetched, statuses);
    ReplaySnoc(cell.log, ByController(edited.state, statuses));
  }

  /** The proxy writes back the state and components it read, and still nobody's write is lost. */
  lemma ProxyWrites(cell: Cell, version: nat, fetched: Status, desired: ServiceState)
    requires CellOk(cell) && FetchedOk(cell, version, fetched)
    ensures var after := PutByProxy(cell, version, fetched, desired); CellOk(after) && Advances(cell, after)
  {
    ReplaySnoc(cell.log, ByProxy(desired));
  }

  /** Some reconcile has recorded Awake together with a snapshot that is ready throughout. */
  ghost predicate EverAwake(log: seq<Write>) {
    exists i :: 0 <= i < |log| && log[i].ByController? && log[i].state == Awake && AllReady(log[i].components)
  }

  lemma {:induction false} AwakeWasRecorded(log: seq<Write>)
    requires Replay(log).state == Awake && AllReady(Replay(log).components)
    ensures EverAwake(log)
    decreases |log|
  {
    var front, last := log[..|log| - 1], log[|log| - 1];
    if last.ByController? {
      assert log[|log| - 1].state == Awake;
    } else {
      AwakeWasRecorded(front);
      EverAwakeStays(front, log);
    }
  }

  lemma EverAwakeStays(a: seq<Write>, b: seq<Write>)
    requires EverAwake(a) && a <= b
    ensures EverAwake(b)
  {
    var i :| 0 <= i < |a| && a[i].ByController? && a[i].state == Awake && AllReady(a[i].components);
    assert b[i] == a[i];
  }

  // ------------------------------------------------------------ the API object

  /** A fetched copy with the version it was read at. */
  datatype Fetched = Fetched(status: Status, version: nat)

  /** The stored object, updated by its two kinds of clients one request at a time. */
  class SharedStatus {
    var status: Status
    var version: nat
    ghost var log: seq<Write>

    ghost function Now(): Cell
      reads this
    {
      Cell(status, version, log)
    }

    constructor ()
      ensures Now() == FRESH
    {
      status, version, log := FRESH.status, FRESH.version, FRESH.log;
    }

    method Get() returns (f: Fetched)
      ensures f == Fetched(status, version) && FetchedOk(Now(), f.version, f.status)
    {
      f := Fetched(status, version);
    }

    /** The status update of the API server: refuses a stale version. */
    method UpdateStatus(f: Fetched, ghost w: Write) returns (ok: bool)
      modifies this
      ensures ok == (f.version == old(version))
      ensures Now() == Put(old(Now()), f.version, f.status, w)
    {
      ok := f.version == version;
      if ok {
        status, version, log := f.status, version + 1, log + [w];
      }
    }

    /** Second half of `UpdateSleepyServiceStatus`: edit the fetched map and write it back. */
    method WriteDesired(f: Fetched, desired: ServiceState) returns (ok: bool)
      requires CellOk(Now()) && FetchedOk(Now(), f.version, f.status)
      modifies this
      ensures Now() == PutByProxy(old(Now()), f.version, f.status, desired)
      ensures CellOk(Now()) && Advances(old(Now()), Now())
      ensures ok ==> status == old(status).(desired := desired)
    {
      ProxyWrites(Now(), f.version, f.status, desired);
      var edited := f.status.(desired := desired);
      ok := UpdateStatus(f.(status := edited), ByProxy(desired));
    }
  }
}
