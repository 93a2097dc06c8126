/**
 Proxy, controllers and the shared status as one transition system.  Threads are unbounded in number; every
 locked section of the proxy and every API request is one atomic step.  A cancelled or expired context shows
 as a request that errs or a wait that times out, which any thread may meet at any time.
 */
module ProxySystem {
  import opened Types
  import opened StatusCell
  import opened WakeProxy

  /** A thread, at the point where it is about to take its next step. */
  datatype Thread =
    | ControllerGet
    | ControllerPut(fetched: Fetched)
    // a wake or hibernation of another proxy process, as far as the stored status sees it
    | OtherGet(desired: ServiceState)
    | OtherPut(fetched: Fetched, desired: ServiceState)
    // triggerWake
    | WakeStart
    | WakeAnnounce
    | WakeGet
    | WakePut(fetched: Fetched)
    | WakeRefused
    | WakeRequested
    | WakePoll
    | WakeReport(seen: Status)
    | WakeReady(seen: Status)
    | WakeSetAwake(seen: Status)
    | WakeAnnounceAwake(seen: Status)
    // hibernate
    | SleepStart
    | SleepAnnounce
    | SleepGet
    | SleepPut(fetched: Fetched)
    | SleepSet
    | SleepFinish
    // checkAndUpdateState
    | RefreshGet
    | RefreshApply(seen: Status)
    // a request to a port
    | RequestArrive
    | RequestHeld
    | RequestForward
    | Done

  /** How the environment answers a step. */
  datatype Answer = Works(statuses: seq<ComponentStatus>) | Errs | TimesOut

  datatype System = System(cell: Cell, memory: Memory, threads: map<nat, Thread>)

  datatype Event =
    | Spawn(id: nat, thread: Thread)
    | Step(id: nat, answer: Answer)
    | Touch

  predicate StartsAt(th: Thread) {
    || th == ControllerGet || th.OtherGet?
    || th == WakeStart || th == SleepStart || th == RefreshGet || th == RequestArrive
  }

  // ------------------------------------------------------------ one thread, one step

  datatype Effect = Effect(cell: Cell, memory: Memory, thread: Thread)

  predicate IsOutside(th: Thread) {
    th.ControllerGet? || th.ControllerPut? || th.OtherGet? || th.OtherPut?
  }

  /** A reconcile, or another proxy, may fail before its write; its write may find a newer version. */
  function OutsideStep(cell: Cell, m: Memory, th: Thread, a: Answer): Effect
    requires IsOutside(th)
  {
    match th
    case ControllerGet => Effect(cell, m, ControllerPut(Fetched(cell.status, cell.version)))
    case ControllerPut(f) =>
      Effect(if a.Works? then PutByController(cell, f.version, f.status, a.statuses) else cell, m, ControllerGet)
    case OtherGet(desired) => Effect(cell, m, OtherPut(Fetched(cell.status, cell.version), desired))
    case OtherPut(f, desired) =>
      Effect(if a.Works? then PutByProxy(cell, f.version, f.status, desired) else cell, m, Done)
  }

  predicate IsWake(th: Thread) {
    || th.WakeStart? || th.WakeAnnounce? || th.WakeGet? || th.WakePut? || th.WakeRefused? || th.WakeRequested?
    || th.WakePoll? || th.WakeReport? || th.WakeReady? || th.WakeSetAwake? || th.WakeAnnounceAwake?
  }

  /** A status write whose answer is late may have been accepted all the same. */
  function WakeStep(cell: Cell, m: Memory, th: Thread, a: Answer): Effect
    requires IsWake(th)
  {
    match th
    case WakeStart =>
      if m.state == StateSleeping then Effect(cell, m.(state := StateWaking), WakeAnnounce) else Effect(cell, m, Done)
    case WakeAnnounce => Effect(cell, UpdateStatus(m, StateWaking, 5), WakeGet)
    case WakeGet => Effect(cell, m, if a.Works? then WakePut(Fetched(cell.status, cell.version)) else WakeRefused)
    case WakePut(f) =>
      var put := PutByProxy(cell, f.version, f.status, Awake);
      if a.Works? && f.version == cell.version then Effect(put, m, WakeRequested)
      else Effect(if a.TimesOut? then put else cell, m, WakeRefused)
    case WakeRefused => Effect(cell, UpdateStatus(m, StateSleeping, 0), Done)
    case WakeRequested => Effect(cell, UpdateStatus(m, StateWaking, 10), WakePoll)
    case WakePoll =>
      Effect(cell, m, match a
                      case Works(_) => WakeReport(cell.status)
                      case Errs => WakePoll
                      case TimesOut => WakeRefused)
    case WakeReport(seen) =>
      Effect(cell, UpdateStatus(m, StateWaking, MappedProgress(PollProgress(seen))),
             if seen.state == Awake then WakeReady(seen) else WakePoll)
    case WakeReady(seen) => Effect(cell, UpdateStatus(m, StateWaking, 95), WakeSetAwake(seen))
    case WakeSetAwake(seen) => Effect(cell, m.(state := StateAwake), WakeAnnounceAwake(seen))
    case WakeAnnounceAwake(_) => Effect(cell, UpdateStatus(m, StateAwake, 100), Done)
  }

  predicate IsSleep(th: Thread) {
    th.SleepStart? || th.SleepAnnounce? || th.SleepGet? || th.SleepPut? || th.SleepSet? || th.SleepFinish?
  }

  /** An error of the status write is only logged. */
  function SleepStep(cell: Cell, m: Memory, th: Thread, a: Answer): Effect
    requires IsSleep(th)
  {
    match th
    case SleepStart => Effect(cell, m, if m.state == StateSleeping then Done else SleepAnnounce)
    case SleepAnnounce => Effect(cell, UpdateStatus(m, StateSleeping, 50), SleepGet)
    case SleepGet => Effect(cell, m, if a.Works? then SleepPut(Fetched(cell.status, cell.version)) else SleepSet)
    case SleepPut(f) =>
      Effect(if a.Errs? then cell else PutByProxy(cell, f.version, f.status, Sleeping), m, SleepSet)
    case SleepSet => Effect(cell, m.(state := StateSleeping), SleepFinish)
    case SleepFinish => Effect(cell, UpdateStatus(m, StateSleeping, 0), Done)
  }

  predicate IsReader(th: Thread) {
    th.RefreshGet? || th.RefreshApply? || th.RequestArrive? || th.RequestHeld? || th.RequestForward? || th.Done?
  }

  /**
   A browser request is answered with the waiting page, an API request is held; the wake that a request triggers is
   a spawned thread.  A forwarded request whose backend fails goes on to refresh the state.
   */
  function ReaderStep(cell: Cell, m: Memory, th: Thread, a: Answer): Effect
    requires IsReader(th)
  {
    match th
    case RefreshGet =>
      Effect(cell, m, if a.Works? && cell.status.state != Unset then RefreshApply(cell.status) else Done)
    case RefreshApply(seen) => Effect(cell, Refresh(m, seen.state), Done)
    case RequestArrive =>
      Effect(cell, m, if m.state == StateAwake then RequestForward else if a.Works? then RequestHeld else Done)
    case RequestHeld =>
      Effect(cell, m, if a.TimesOut? then Done else if m.state == StateAwake then RequestForward else RequestHeld)
    case RequestForward => Effect(cell, m, if a.Errs? then RefreshGet else Done)
    case Done => Effect(cell, m, Done)
  }

  function Act(cell: Cell, m: Memory, th: Thread, a: Answer): Effect {
    if IsWake(th) then WakeStep(cell, m, th, a)
    else if IsSleep(th) then SleepStep(cell, m, th, a)
    else if IsReader(th) then ReaderStep(cell, m, th, a)
    else OutsideStep(cell, m, th, a)
  }

  predicate Enabled(s: System, e: Event) {
    match e
    case Spawn(id, thread) => id !in s.threads && StartsAt(thread)
    case Step(id, _) => id in s.threads
    case Touch => true
  }

  function Next(s: System, e: Event): System
    requires Enabled(s, e)
  {
    match e
    case Spawn(id, thread) => s.(threads := s.threads[id := thread])
    case Step(id, a) =>
      var x := Act(s.cell, s.memory, s.threads[id], a);
      System(x.cell, x.memory, s.threads[id := x.thread])
    case Touch => s.(cell := Touched(s.cell))
  }

  /** The stored status may have been written before; the proxy starts with the refresh of `main`. */
  ghost predicate Initial(s: System) {
    && CellOk(s.cell) && s.threads == map[]
    && (s.memory == ZERO || s.memory == Startup(Some(s.cell.status.state)))
  }

  ghost predicate Linked(ss: seq<System>, es: seq<Event>, i: nat)
    requires |ss| == |es| + 1 && i < |es|
  {
    Enabled(ss[i], es[i]) && ss[i + 1] == Next(ss[i], es[i])
  }

  /** `ss` are the states passed through by the events `es`. */
  ghost predicate IsRun(ss: seq<System>, es: seq<Event>) {
    |ss| == |es| + 1 && Initial(ss[0]) && forall i | 0 <= i < |es| :: Linked(ss, es, i)
  }

  // ------------------------------------------------------------ what every thread holds

  /** What a thread carries fits the stored history. */
  ghost predicate ThreadOk(cell: Cell, th: Thread) {
    match th
    case ControllerPut(f) => FetchedOk(cell, f.version, f.status)
    case OtherPut(f, _) => FetchedOk(cell, f.version, f.status)
    case WakePut(f) => FetchedOk(cell, f.version, f.status)
    case SleepPut(f) => FetchedOk(cell, f.version, f.status)
    case WakeReport(seen) => seen.state == Awake ==> EverAwake(cell.log)
    case RefreshApply(seen) => seen.state == Awake ==> EverAwake(cell.log)
    case WakeReady(seen) => seen.state == Awake && EverAwake(cell.log)
    case WakeSetAwake(seen) => seen.state == Awake && EverAwake(cell.log)
    case WakeAnnounceAwake(seen) => seen.state == Awake && EverAwake(cell.log)
    case RequestForward => EverAwake(cell.log)
    case _ => true
  }

  ghost predicate MemoryOk(cell: Cell, m: Memory) {
    ProgressOk(m.wakeStatus) && (m.state == StateAwake ==> EverAwake(cell.log))
  }

  ghost predicate SystemOk(s: System) {
    && CellOk(s.cell) && MemoryOk(s.cell, s.memory)
    && forall id | id in s.threads :: ThreadOk(s.cell, s.threads[id])
  }

  lemma CurrentAwakeWasRecorded(cell: Cell)
    requires CellOk(cell) && cell.status.state == Awake
    ensures EverAwake(cell.log)
  {
    AwakeWasRecorded(cell.log);
  }

  /** A thread that is about to write the stored status. */
  predicate Writes(th: Thread) {
    th.ControllerPut? || th.OtherPut? || th.WakePut? || th.SleepPut?
  }

  /** What a step of a writer may make of the stored status: nothing, or its own write. */
  function Written(cell: Cell, th: Thread, a: Answer): Cell
    requires Writes(th)
  {
    match th
    case ControllerPut(f) =>
      (match a case Works(statuses) => PutByController(cell, f.version, f.status, statuses) case _ => cell)
    case OtherPut(f, desired) => PutByProxy(cell, f.version, f.status, desired)
    case WakePut(f) => PutByProxy(cell, f.version, f.status, Awake)
    case SleepPut(f) => PutByProxy(cell, f.version, f.status, Sleeping)
  }

  /** A writer leaves the proxy's memory alone, everybody else the stored status. */
  lemma ActWrites(cell: Cell, m: Memory, th: Thread, a: Answer)
    ensures var x := Act(cell, m, th, a);
            if Writes(th) then x.memory == m && (x.cell == cell || x.cell == Written(cell, th, a)) else x.cell == cell
  {
  }

  lemma WrittenAdvances(cell: Cell, th: Thread, a: Answer)
    requires CellOk(cell) && Writes(th) && ThreadOk(cell, th)
    ensures CellOk(Written(cell, th, a)) && Advances(cell, Written(cell, th, a))
  {
    match th
    case ControllerPut(f) =>
      if a.Works? {
        ControllerWrites(cell, f.version, f.status, a.statuses);
      }
    case OtherPut(f, desired) => ProxyWrites(cell, f.version, f.status, desired);
    case WakePut(f) => ProxyWrites(cell, f.version, f.status, Awake);
    case SleepPut(f) => ProxyWrites(cell, f.version, f.status, Sleeping);
  }

  lemma ActAdvances(cell: Cell, m: Memory, th: Thread, a: Answer)
    requires CellOk(cell) && ThreadOk(cell, th)
    ensures var x := Act(cell, m, th, a); CellOk(x.cell) && Advances(cell, x.cell)
  {
    ActWrites(cell, m, th, a);
    if Writes(th) {
      WrittenAdvances(cell, th, a);
    }
  }

  lemma OthersStayOk(a: Cell, b: Cell, th: Thread)
    requires ThreadOk(a, th) && Advances(a, b)
    ensures ThreadOk(b, th)
  {
    if EverAwake(a.log) {
      EverAwakeStays(a.log, b.log);
    }
    match th
    case ControllerPut(f) => FetchedStays(a, b, f.version, f.status);
    case OtherPut(f, _) => FetchedStays(a, b, f.version, f.status);
    case WakePut(f) => FetchedStays(a, b, f.version, f.status);
    case SleepPut(f) => FetchedStays(a, b, f.version, f.status);
    case _ =>
  }

  lemma WriterKeepsOk(cell: Cell, m: Memory, th: Thread, a: Answer)
    requires CellOk(cell) && ThreadOk(cell, th) && MemoryOk(cell, m) && Writes(th)
    ensures var x := Act(cell, m, th, a); ThreadOk(x.cell, x.thread) && MemoryOk(x.cell, x.memory)
  {
    var x := Act(cell, m, th, a);
    ActWrites(cell, m, th, a);
    assert ThreadOk(x.cell, x.thread);
    assert Advances(cell, x.cell) by {
      ActAdvances(cell, m, th, a);
    }
    if m.state == StateAwake {
      EverAwakeStays(cell.log, x.cell.log);
    }
  }

  lemma WakeKeepsOk(cell: Cell, m: Memory, th: Thread, a: Answer)
    requires CellOk(cell) && ThreadOk(cell, th) && MemoryOk(cell, m) && IsWake(th) && !Writes(th)
    ensures var x := WakeStep(cell, m, th, a); ThreadOk(x.cell, x.thread) && MemoryOk(x.cell, x.memory)
  {
    if cell.status.state == Awake {
      CurrentAwakeWasRecorded(cell);
    }
    if th.WakeReport? {
      MappedInRange(PollProgress(th.seen));
    }
  }

  lemma OtherKeepsOk(cell: Cell, m: Memory, th: Thread, a: Answer)
    requires CellOk(cell) && ThreadOk(cell, th) && MemoryOk(cell, m) && !IsWake(th) && !Writes(th)
    ensures var x := Act(cell, m, th, a); ThreadOk(x.cell, x.thread) && MemoryOk(x.cell, x.memory)
  {
    if cell.status.state == Awake {
      CurrentAwakeWasRecorded(cell);
    }
  }

  lemma ActKeepsOk(cell: Cell, m: Memory, th: Thread, a: Answer)
    requires CellOk(cell) && ThreadOk(cell, th) && MemoryOk(cell, m)
    ensures var x := Act(cell, m, th, a); ThreadOk(x.cell, x.thread) && MemoryOk(x.cell, x.memory)
  {
    if Writes(th) {
      WriterKeepsOk(cell, m, th, a);
    } else if IsWake(th) {
      WakeKeepsOk(cell, m, th, a);
    } else {
      OtherKeepsOk(cell, m, th, a);
    }
  }

  lemma NextKeepsOk(s: System, e: Event)
    requires SystemOk(s) && Enabled(s, e)
    ensures SystemOk(Next(s, e)) && Advances(s.cell, Next(s, e).cell)
  {
    var t := Next(s, e);
    match e
    case Spawn(_, _) =>
    case Touch =>
      forall id | id in s.threads
        ensures ThreadOk(t.cell, s.threads[id])
      {
        OthersStayOk(s.cell, t.cell, s.threads[id]);
      }
    case Step(id, a) =>
      ActAdvances(s.cell, s.memory, s.threads[id], a);
      ActKeepsOk(s.cell, s.memory, s.threads[id], a);
      forall other | other in s.threads && other != id
        ensures ThreadOk(t.cell, t.threads[other])
      {
        OthersStayOk(s.cell, t.cell, s.threads[other]);
      }
  }

  lemma InitialOk(s: System)
    requires Initial(s)
    ensures SystemOk(s)
  {
    if s.cell.status.state == Awake {
      CurrentAwakeWasRecorded(s.cell);
    }
  }

  lemma {:induction false} RunOk(ss: seq<System>, es: seq<Event>, i: nat)
    requires IsRun(ss, es) && i < |ss|
    ensures SystemOk(ss[i])
  {
    if i == 0 {
      InitialOk(ss[0]);
    } else {
      RunOk(ss, es, i - 1);
      assert Linked(ss, es, i - 1);
      NextKeepsOk(ss[i - 1], es[i - 1]);
    }
  }

  // ------------------------------------------------------------ the shared status

  /**
   In every reachable state, with any number of controllers and proxies, the stored state tells the truth about the
   stored components.
   */
  lemma StoredStatusTruthful(ss: seq<System>, es: seq<Event>, i: nat)
    requires IsRun(ss, es) && i < |ss|
    ensures Truthful(ss[i].cell.status)
  {
    RunOk(ss, es, i);
  }

  /**
   Nobody's write is lost: although each side writes the whole status back, what is stored is the last accepted
   proxy write for the desired state and the last accepted controller write for the rest.
   */
  lemma NoLostUpdates(ss: seq<System>, es: seq<Event>, i: nat)
    requires IsRun(ss, es) && i < |ss|
    ensures ss[i].cell.status == Replay(ss[i].cell.log)
    ensures i > 0 ==> ss[i - 1].cell.log <= ss[i].cell.log
  {
    RunOk(ss, es, i);
    if i > 0 {
      RunOk(ss, es, i - 1);
      assert Linked(ss, es, i - 1);
      NextKeepsOk(ss[i - 1], es[i - 1]);
    }
  }

  // ------------------------------------------------------------ what an accepted write stores

  /** Event `j` is a step of this thread that stores a desired state, and nothing but it. */
  ghost predicate StoresWish(ss: seq<System>, es: seq<Event>, j: nat, id: nat, desired: ServiceState)
    requires |ss| == |es| + 1
  {
    && j < |es| && es[j].Step? && es[j].id == id
    && ss[j + 1].cell.status == ss[j].cell.status.(desired := desired)
    && ss[j + 1].cell.log == ss[j].cell.log + [ByProxy(desired)]
  }

  /** In every run a proxy write that works at the current version stores its desired state and nothing else. */
  lemma ProxyWriteIsStored(ss: seq<System>, es: seq<Event>, i: nat)
    requires IsRun(ss, es) && i < |es| && es[i].Step? && es[i].answer.Works? && es[i].id in ss[i].threads
    requires var th := ss[i].threads[es[i].id];
             (th.WakePut? || th.SleepPut? || th.OtherPut?) && th.fetched.version == ss[i].cell.version
    ensures var th := ss[i].threads[es[i].id];
            StoresWish(
              ss, es, i, es[i].id, if th.WakePut? then Awake else if th.SleepPut? then Sleeping else th.desired)
    ensures ss[i + 1].cell.version > ss[i].cell.version
  {
    RunOk(ss, es, i);
    assert Linked(ss, es, i) && ThreadOk(ss[i].cell, ss[i].threads[es[i].id]);
  }

  /** A wake sequence that has announced its request, or got further. */
  predicate HasRequested(th: Thread) {
    th.WakeRequested? || th.WakePoll? || th.WakeReport? || th.WakeReady? || th.WakeSetAwake? || th.WakeAnnounceAwake?
  }

  /** In every run a wake sequence that waits for Awake has itself stored the request for it before. */
  lemma {:induction false} RequestWasStored(ss: seq<System>, es: seq<Event>, i: nat, id: nat)
    requires IsRun(ss, es) && i < |ss| && id in ss[i].threads && HasRequested(ss[i].threads[id])
    ensures exists j: nat :: j < i && StoresWish(ss, es, j, id, Awake)
  {
    if i > 0 {
      assert Linked(ss, es, i - 1);
      var s, e := ss[i - 1], es[i - 1];
      if e.Step? && e.id == id && !HasRequested(s.threads[id]) {
        assert s.threads[id].WakePut? && e.answer.Works? && s.threads[id].fetched.version == s.cell.version;
        ProxyWriteIsStored(ss, es, i - 1);
      } else {
        RequestWasStored(ss, es, i - 1, id);
      }
    }
  }

  /**
   In every run a reconcile's write that works at the current version stores its snapshot and the state that follows
   from it, and leaves the desired state as it is.
   */
  lemma ControllerWriteIsStored(ss: seq<System>, es: seq<Event>, i: nat)
    requires IsRun(ss, es) && i < |es| && es[i].Step? && es[i].answer.Works? && es[i].id in ss[i].threads
    requires var th := ss[i].threads[es[i].id]; th.ControllerPut? && th.fetched.version == ss[i].cell.version
    ensures var was, now, statuses := ss[i].cell.status, ss[i + 1].cell.status, es[i].answer.statuses;
            var ready := forall k | 0 <= k < |statuses| :: statuses[k].ready;
            && now.desired == was.desired && now.components == statuses
            && ss[i + 1].cell.log == ss[i].cell.log + [ByController(now.state, statuses)]
            && (now.state == Awake <==> ready && was.desired != Sleeping && was.desired != Unset)
            && (now.state == Waking <==> !ready && (was.state == Waking || was.desired == Awake))
    ensures ss[i + 1].cell.version > ss[i].cell.version
  {
    RunOk(ss, es, i);
    assert Linked(ss, es, i) && ThreadOk(ss[i].cell, ss[i].threads[es[i].id]);
  }

  /** In every run a write of an outdated copy changes nothing. */
  lemma StaleWriteIsRefused(ss: seq<System>, es: seq<Event>, i: nat)
    requires IsRun(ss, es) && i < |es| && es[i].Step? && es[i].id in ss[i].threads
    requires var th := ss[i].threads[es[i].id]; Writes(th) && th.fetched.version != ss[i].cell.version
    ensures ss[i + 1].cell == ss[i].cell
  {
    assert Linked(ss, es, i);
  }

  // ------------------------------------------------------------ awake has a cause

  predicate HasSeen(th: Thread) {
    th.WakeReport? || th.WakeReady? || th.WakeSetAwake? || th.WakeAnnounceAwake? || th.RefreshApply?
  }

  /** The next step of the thread sets the proxy Awake. */
  predicate WritesAwake(th: Thread) {
    th.WakeSetAwake? || th.WakeAnnounceAwake? || (th.RefreshApply? && th.seen.state == Awake)
  }

  /** Event `j` is the read of the stored status by this thread, and it found `seen`. */
  ghost predicate Reads(ss: seq<System>, es: seq<Event>, j: nat, id: nat, seen: Status)
    requires |ss| == |es| + 1
  {
    && j < |es| && es[j].Step? && es[j].id == id && es[j].answer.Works?
    && id in ss[j].threads && (ss[j].threads[id].WakePoll? || ss[j].threads[id].RefreshGet?)
    && ss[j].cell.status == seen
  }

  /** What a thread has seen it has read from the stored status, earlier in the run. */
  lemma {:induction false} SeenWasRead(ss: seq<System>, es: seq<Event>, i: nat, id: nat)
    requires IsRun(ss, es) && i < |ss| && id in ss[i].threads && HasSeen(ss[i].threads[id])
    ensures exists j: nat :: j < i && Reads(ss, es, j, id, ss[i].threads[id].seen)
  {
    if i > 0 {
      assert Linked(ss, es, i - 1);
      var e := es[i - 1];
      if e.Step? && e.id == id && !HasSeen(ss[i - 1].threads[id]) {
        assert Reads(ss, es, i - 1, id, ss[i].threads[id].seen);
      } else {
        SeenWasRead(ss, es, i - 1, id);
      }
    }
  }

  /** A step that does not write Awake leaves the proxy Awake only if it was. */
  lemma OnlyWritersMakeAwake(cell: Cell, m: Memory, th: Thread, a: Answer)
    requires Act(cell, m, th, a).memory.state == StateAwake && !WritesAwake(th)
    ensures m.state == StateAwake
  {
  }

  /**
   In every run, a step that turns the proxy Awake, or writes Awake again, is by a thread that has itself read the
   stored status earlier in the run and found Awake there.
   */
  lemma AwakeHasReader(ss: seq<System>, es: seq<Event>, i: nat)
    requires IsRun(ss, es) && i < |es| && ss[i + 1].memory.state == StateAwake
    requires ss[i].memory.state != StateAwake
             || (es[i].Step? && es[i].id in ss[i].threads && WritesAwake(ss[i].threads[es[i].id]))
    ensures es[i].Step?
    ensures exists j: nat, seen :: j < i && Reads(ss, es, j, es[i].id, seen) && seen.state == Awake
  {
    RunOk(ss, es, i);
    assert Linked(ss, es, i);
    var th := ss[i].threads[es[i].id];
    if !WritesAwake(th) {
      OnlyWritersMakeAwake(ss[i].cell, ss[i].memory, th, es[i].answer);
    }
    assert ThreadOk(ss[i].cell, th);
    SeenWasRead(ss, es, i, es[i].id);
  }

  /** No request is forwarded unless a single reconcile has recorded Awake with every component ready. */
  lemma ForwardedAfterAllReady(ss: seq<System>, es: seq<Event>, i: nat, id: nat)
    requires IsRun(ss, es) && i < |ss| && id in ss[i].threads && ss[i].threads[id].RequestForward?
    ensures EverAwake(ss[i].cell.log)
  {
    RunOk(ss, es, i);
    assert ThreadOk(ss[i].cell, ss[i].threads[id]);
  }

  // ------------------------------------------------------------ state and progress bar

  /** What a thread has written to the state alone and is about to repeat in the progress bar. */
  function Owes(th: Thread): Option<State> {
    match th
    case WakeAnnounce => Some(StateWaking)
    case WakeAnnounceAwake(_) => Some(StateAwake)
    case SleepFinish => Some(StateSleeping)
    case _ => None
  }

  /** State and progress bar differ only while some thread owes exactly the state that is set. */
  ghost predicate Explained(s: System) {
    s.memory.state != s.memory.wakeStatus.state ==>
      exists id :: id in s.threads && Owes(s.threads[id]) == Some(s.memory.state)
  }

  /** A step either leaves the memory alone, makes both halves agree, or leaves its thread owing the state. */
  lemma ActOwes(cell: Cell, m: Memory, th: Thread, a: Answer)
    ensures var x := Act(cell, m, th, a);
            || (x.memory == m && (Owes(th).None? || x.memory.state == x.memory.wakeStatus.state))
            || x.memory.state == x.memory.wakeStatus.state
            || Owes(x.thread) == Some(x.memory.state)
  {
  }

  lemma NextKeepsExplained(s: System, e: Event)
    requires Explained(s) && Enabled(s, e)
    ensures Explained(Next(s, e))
  {
    var t := Next(s, e);
    if t.memory.state != t.memory.wakeStatus.state {
      if e.Step? {
        ActOwes(s.cell, s.memory, s.threads[e.id], e.answer);
        var x := Act(s.cell, s.memory, s.threads[e.id], e.answer);
        if Owes(x.thread) == Some(x.memory.state) {
          assert t.threads[e.id] == x.thread;
        } else {
          var id :| id in s.threads && Owes(s.threads[id]) == Some(s.memory.state);
          assert t.threads[id] == s.threads[id];
        }
      } else {
        var id :| id in s.threads && Owes(s.threads[id]) == Some(s.memory.state);
        assert t.threads[id] == s.threads[id];
      }
    }
  }

  /** With any number of threads: the bar is in range, and a mismatch is always some thread's open update. */
  lemma {:induction false} ProxyStatusConsistent(ss: seq<System>, es: seq<Event>, i: nat)
    requires IsRun(ss, es) && i < |ss|
    ensures ProgressOk(ss[i].memory.wakeStatus) && Explained(ss[i])
  {
    RunOk(ss, es, i);
    if i > 0 {
      ProxyStatusConsistent(ss, es, i - 1);
      assert Linked(ss, es, i - 1);
      NextKeepsExplained(ss[i - 1], es[i - 1]);
    }
  }

  // ------------------------------------------------------------ one wake at a time

  /** A wake sequence that has not yet written Awake. */
  predicate BeforeAwake(th: Thread) {
    IsWake(th) && !th.WakeStart? && !th.WakeAnnounceAwake?
  }

  predicate ActiveWake(th: Thread) {
    IsWake(th) && !th.WakeStart?
  }

  /** No hibernation and no refresh: neither started, nor entered after a failed backend. */
  predicate Calm(s: System, e: Event)
    requires Enabled(s, e)
  {
    match e
    case Spawn(_, thread) => thread != SleepStart && thread != RefreshGet
    case Step(id, a) => !(s.threads[id].RequestForward? && a.Errs?)
    case Touch => true
  }

  ghost predicate IsCalmRun(ss: seq<System>, es: seq<Event>) {
    IsRun(ss, es) && forall i | 0 <= i < |es| :: Linked(ss, es, i) && Calm(ss[i], es[i])
  }

  predicate Resets(th: Thread) {
    IsSleep(th) || th.RefreshGet? || th.RefreshApply?
  }

  ghost predicate NoResets(s: System) {
    forall id | id in s.threads :: !Resets(s.threads[id])
  }

  ghost predicate AtMostOneWake(s: System) {
    forall x, y | x in s.threads && y in s.threads && ActiveWake(s.threads[x]) && ActiveWake(s.threads[y]) :: x == y
  }

  /** The proxy says Waking exactly while a wake sequence runs that has not written Awake. */
  ghost predicate WakingMeansActive(s: System) {
    s.memory.state == StateWaking <==> exists id :: id in s.threads && BeforeAwake(s.threads[id])
  }

  ghost predicate OneWake(s: System) {
    && NoResets(s) && AtMostOneWake(s) && WakingMeansActive(s)
    && (forall id | id in s.threads && s.threads[id].WakeAnnounceAwake? :: s.memory.state == StateAwake)
  }

  /** A step of a wake sequence keeps the proxy Waking until it ends or has written Awake. */
  lemma WakeStepState(cell: Cell, m: Memory, th: Thread, a: Answer)
    requires ActiveWake(th)
    ensures var x := WakeStep(cell, m, th, a);
            && (ActiveWake(x.thread) || x.thread.Done?)
            && (BeforeAwake(x.thread) && m.state == StateWaking ==> x.memory.state == StateWaking)
            && (!BeforeAwake(x.thread) ==> x.memory.state != StateWaking)
            && (x.thread.WakeAnnounceAwake? ==> x.memory.state == StateAwake)
  {
  }

  /** Without resets, other threads never touch the state. */
  lemma QuietStepState(cell: Cell, m: Memory, th: Thread, a: Answer)
    requires !IsWake(th) && !Resets(th) && !(th.RequestForward? && a.Errs?)
    ensures var x := Act(cell, m, th, a); x.memory == m && !IsWake(x.thread) && !Resets(x.thread)
  {
  }

  lemma SpawnKeepsOneWake(s: System, id: nat, th: Thread)
    requires OneWake(s) && id !in s.threads && StartsAt(th) && !Resets(th)
    ensures OneWake(s.(threads := s.threads[id := th]))
  {
    var t := s.(threads := s.threads[id := th]);
    if x :| x in s.threads && BeforeAwake(s.threads[x]) {
      assert BeforeAwake(t.threads[x]);
    }
  }

  /** A change of one thread that starts and ends outside the active wakes changes nothing here. */
  lemma PassiveKeepsOneWake(s: System, id: nat, th: Thread, cell: Cell)
    requires OneWake(s) && id in s.threads && !ActiveWake(s.threads[id]) && !ActiveWake(th) && !Resets(th)
    ensures OneWake(System(cell, s.memory, s.threads[id := th]))
  {
    var t := System(cell, s.memory, s.threads[id := th]);
    if x :| x in s.threads && BeforeAwake(s.threads[x]) {
      assert BeforeAwake(t.threads[x]);
    }
  }

  /** The step of the only active wake. */
  lemma ActiveKeepsOneWake(s: System, id: nat, a: Answer)
    requires OneWake(s) && id in s.threads && ActiveWake(s.threads[id])
    ensures OneWake(Next(s, Step(id, a)))
  {
    var th := s.threads[id];
    var x := WakeStep(s.cell, s.memory, th, a);
    var t := Next(s, Step(id, a));
    WakeStepState(s.cell, s.memory, th, a);
    assert BeforeAwake(th) ==> s.memory.state == StateWaking;
    assert t.threads[id] == x.thread;
    forall other | other in s.threads && other != id
      ensures !ActiveWake(t.threads[other])
    {
      assert t.threads[other] == s.threads[other];
    }
  }

  /** A wake starts only from Sleeping, where no other is active. */
  lemma StartKeepsOneWake(s: System, id: nat, a: Answer)
    requires OneWake(s) && id in s.threads && s.threads[id].WakeStart? && s.memory.state == StateSleeping
    ensures OneWake(Next(s, Step(id, a)))
  {
    var t := Next(s, Step(id, a));
    assert t.threads[id] == WakeAnnounce;
    forall other | other in s.threads && other != id
      ensures !ActiveWake(t.threads[other])
    {
      assert t.threads[other] == s.threads[other];
      assert BeforeAwake(s.threads[other]) ==> s.memory.state == StateWaking;
    }
  }

  lemma NextKeepsOneWake(s: System, e: Event)
    requires OneWake(s) && Enabled(s, e) && Calm(s, e)
    ensures OneWake(Next(s, e))
  {
    match e
    case Spawn(id, th) => SpawnKeepsOneWake(s, id, th);
    case Touch =>
    case Step(id, a) =>
      var th := s.threads[id];
      if ActiveWake(th) {
        ActiveKeepsOneWake(s, id, a);
      } else if th.WakeStart? {
        if s.memory.state == StateSleeping {
          StartKeepsOneWake(s, id, a);
        } else {
          PassiveKeepsOneWake(s, id, Done, s.cell);
        }
      } else {
        QuietStepState(s.cell, s.memory, th, a);
        var x := Act(s.cell, s.memory, th, a);
        PassiveKeepsOneWake(s, id, x.thread, x.cell);
      }
  }

  lemma CalmAt(ss: seq<System>, es: seq<Event>, i: nat)
    requires IsCalmRun(ss, es) && i < |es|
    ensures Enabled(ss[i], es[i]) && Calm(ss[i], es[i]) && ss[i + 1] == Next(ss[i], es[i])
  {
    assert Linked(ss, es, i) && Calm(ss[i], es[i]);
  }

  lemma InitialOneWake(s: System)
    requires Initial(s) && s.memory.state != StateWaking
    ensures OneWake(s)
  {
  }

  /**
   With any number of concurrent requests, and neither hibernation nor refresh, at most one wake sequence is ever
   active, and the proxy is Waking exactly while one is: provided the start did not already read Waking.
   */
  lemma {:induction false} OneWakeAtATime(ss: seq<System>, es: seq<Event>, i: nat)
    requires IsCalmRun(ss, es) && i < |ss| && ss[0].memory.state != StateWaking
    ensures AtMostOneWake(ss[i]) && WakingMeansActive(ss[i]) && OneWake(ss[i])
  {
    if i == 0 {
      InitialOneWake(ss[0]);
    } else {
      OneWakeAtATime(ss, es, i - 1);
      CalmAt(ss, es, i - 1);
      NextKeepsOneWake(ss[i - 1], es[i - 1]);
    }
  }

  ghost predicate Stuck(s: System) {
    && s.memory.state == StateWaking && NoResets(s)
    && forall id | id in s.threads :: !ActiveWake(s.threads[id])
  }

  lemma NextKeepsStuck(s: System, e: Event)
    requires Stuck(s) && Enabled(s, e) && Calm(s, e)
    ensures Stuck(Next(s, e))
  {
    if e.Step? && !IsWake(s.threads[e.id]) {
      QuietStepState(s.cell, s.memory, s.threads[e.id], e.answer);
    }
  }

  /** A proxy that reads Waking at its start never leaves Waking through requests: no wake sequence is running. */
  lemma {:induction false} StartedWakingStaysWaking(ss: seq<System>, es: seq<Event>, i: nat)
    requires IsCalmRun(ss, es) && i < |ss| && ss[0].memory.state == StateWaking
    ensures Stuck(ss[i])
  {
    if i > 0 {
      StartedWakingStaysWaking(ss, es, i - 1);
      CalmAt(ss, es, i - 1);
      NextKeepsStuck(ss[i - 1], es[i - 1]);
    }
  }

  /** Hence the promise "Waking means that a wake is running" holds in a calm run exactly when the start permits it. */
  lemma WakingMeansActiveIff(ss: seq<System>, es: seq<Event>)
    requires IsCalmRun(ss, es)
    ensures (forall i | 0 <= i < |ss| :: WakingMeansActive(ss[i])) <==> ss[0].memory.state != StateWaking
  {
    if ss[0].memory.state != StateWaking {
      forall i | 0 <= i < |ss|
        ensures WakingMeansActive(ss[i])
      {
        OneWakeAtATime(ss, es, i);
      }
    } else {
      assert !WakingMeansActive(ss[0]);
    }
  }

  // ------------------------------------------------------------ hibernation and refresh beside a wake

  /** In any run: a step makes a second wake active exactly when a start finds Sleeping beside an active wake. */
  lemma SecondWakeIff(s: System, e: Event)
    requires AtMostOneWake(s) && Enabled(s, e)
    ensures !AtMostOneWake(Next(s, e)) <==>
            && e.Step? && s.threads[e.id].WakeStart? && s.memory.state == StateSleeping
            && exists id :: id in s.threads && ActiveWake(s.threads[id])
  {
    var t := Next(s, e);
    if e.Step? {
      NewWakeOnlyFromStart(s, e.id, e.answer);
      assert forall id | id in s.threads && id != e.id :: t.threads[id] == s.threads[id];
      if s.threads[e.id].WakeStart? && s.memory.state == StateSleeping {
        assert ActiveWake(t.threads[e.id]);
        if id :| id in s.threads && ActiveWake(s.threads[id]) {
          assert id != e.id && ActiveWake(t.threads[id]);
        }
      }
    }
  }

  lemma NewWakeOnlyFromStart(s: System, id: nat, a: Answer)
    requires id in s.threads
    ensures var th := s.threads[id];
            ActiveWake(Next(s, Step(id, a)).threads[id]) ==>
              ActiveWake(th) || (th.WakeStart? && s.memory.state == StateSleeping)
  {
  }

  ghost predicate SomeWake(s: System) {
    exists id :: id in s.threads && ActiveWake(s.threads[id])
  }

  /** A hibernation or a refresh sets the proxy Sleeping while a wake is active. */
  ghost predicate Interrupts(s: System, e: Event)
    requires Enabled(s, e)
  {
    && e.Step? && Resets(s.threads[e.id]) && SomeWake(s)
    && s.memory.state != StateSleeping && Next(s, e).memory.state == StateSleeping
  }

  ghost predicate InterruptsAt(ss: seq<System>, es: seq<Event>, j: nat)
    requires |ss| == |es| + 1
  {
    j < |es| && Linked(ss, es, j) && Interrupts(ss[j], es[j])
  }

  /** At most one wake is active, and the proxy is not Sleeping while one is. */
  ghost predicate SafeToStart(s: System) {
    AtMostOneWake(s) && (SomeWake(s) ==> s.memory.state != StateSleeping)
  }

  /** What a thread other than a hibernation or a refresh does to the state, and whether it is an active wake after. */
  lemma StepKeepsAwakeOrEnds(cell: Cell, m: Memory, th: Thread, a: Answer)
    requires !Resets(th)
    ensures var x := Act(cell, m, th, a);
            && (!ActiveWake(th) && !th.WakeStart? ==> x.memory == m && !ActiveWake(x.thread))
            && (ActiveWake(th) && ActiveWake(x.thread) && m.state != StateSleeping ==>
                  x.memory.state != StateSleeping)
            && (th.WakeStart? ==> (ActiveWake(x.thread) <==> m.state == StateSleeping)
                                  && x.memory.state != StateSleeping)
  {
  }

  lemma ResetIsNoWake(cell: Cell, m: Memory, th: Thread, a: Answer)
    requires Resets(th)
    ensures !ActiveWake(th) && !ActiveWake(Act(cell, m, th, a).thread)
  {
  }

  /** Whose wake is active afterwards: another thread's, or this one's. */
  lemma WakesAfterStep(s: System, id: nat, a: Answer)
    requires id in s.threads && SomeWake(Next(s, Step(id, a)))
    ensures ActiveWake(Next(s, Step(id, a)).threads[id]) || SomeWake(s)
  {
    var t := Next(s, Step(id, a));
    var x :| x in t.threads && ActiveWake(t.threads[x]);
    assert x != id ==> t.threads[x] == s.threads[x];
  }

  lemma SpawnKeepsSafe(s: System, id: nat, th: Thread)
    requires SafeToStart(s) && id !in s.threads && StartsAt(th)
    ensures SafeToStart(s.(threads := s.threads[id := th]))
  {
    var t := s.(threads := s.threads[id := th]);
    if x :| x in t.threads && ActiveWake(t.threads[x]) {
      assert ActiveWake(s.threads[x]);
    }
  }

  lemma StepKeepsSafe(s: System, id: nat, a: Answer)
    requires SafeToStart(s) && id in s.threads && !Interrupts(s, Step(id, a))
    ensures SafeToStart(Next(s, Step(id, a)))
  {
    var th, t := s.threads[id], Next(s, Step(id, a));
    SecondWakeIff(s, Step(id, a));
    if Resets(th) {
      ResetIsNoWake(s.cell, s.memory, th, a);
    } else {
      StepKeepsAwakeOrEnds(s.cell, s.memory, th, a);
    }
    if SomeWake(t) {
      WakesAfterStep(s, id, a);
    }
  }

  lemma NextKeepsSafe(s: System, e: Event)
    requires SafeToStart(s) && Enabled(s, e) && !Interrupts(s, e)
    ensures SafeToStart(Next(s, e))
  {
    match e
    case Spawn(id, th) => SpawnKeepsSafe(s, id, th);
    case Touch =>
    case Step(id, a) => StepKeepsSafe(s, id, a);
  }

  /**
   In every run, hibernations and refreshes included: as long as none of them has set the proxy Sleeping under an
   active wake, at most one wake is active and the proxy is not Sleeping while one is.
   */
  lemma {:induction false} UninterruptedIsSafe(ss: seq<System>, es: seq<Event>, i: nat)
    requires IsRun(ss, es) && i < |ss| && forall j: nat | j < i :: !InterruptsAt(ss, es, j)
    ensures SafeToStart(ss[i])
  {
    if i > 0 {
      UninterruptedIsSafe(ss, es, i - 1);
      assert Linked(ss, es, i - 1) && !InterruptsAt(ss, es, i - 1);
      NextKeepsSafe(ss[i - 1], es[i - 1]);
    }
  }

  /** Hence behind a second wake there always is a hibernation or a refresh that set Sleeping under an active wake. */
  lemma SecondWakeWasInterrupted(ss: seq<System>, es: seq<Event>, i: nat)
    requires IsRun(ss, es) && i < |ss| && !AtMostOneWake(ss[i])
    ensures exists j: nat :: j < i && InterruptsAt(ss, es, j)
  {
    if forall j: nat | j < i :: !InterruptsAt(ss, es, j) {
      UninterruptedIsSafe(ss, es, i);
    }
  }

  lemma {:induction false} FreshId(ids: set<nat>) returns (id: nat)
    ensures forall x | x in ids :: x < id
  {
    if ids == {} {
      id := 0;
    } else {
      var x :| x in ids;
      var rest := FreshId(ids - {x});
      id := if x < rest then rest else x + 1;
      assert forall y | y in ids :: y == x || y in ids - {x};
    }
  }

  /** The next request starts a second wake. */
  lemma SleepingUnderWakeAdmitsSecond(s: System) returns (id: nat)
    requires SomeWake(s) && s.memory.state == StateSleeping
    ensures id !in s.threads
    ensures !AtMostOneWake(Next(Next(s, Spawn(id, WakeStart)), Step(id, Errs)))
  {
    id := FreshId(s.threads.Keys);
    var x :| x in s.threads && ActiveWake(s.threads[x]);
    var t := Next(Next(s, Spawn(id, WakeStart)), Step(id, Errs));
    assert ActiveWake(t.threads[id]) && ActiveWake(t.threads[x]);
  }

  /** And conversely, after every such interruption the run can go on, by one more request, to two active wakes. */
  lemma InterruptionAdmitsSecondWake(ss: seq<System>, es: seq<Event>, j: nat)
    returns (more: seq<System>, events: seq<Event>)
    requires IsRun(ss, es) && InterruptsAt(ss, es, j)
    ensures IsRun(more, events) && |events| == j + 3
    ensures more[..j + 2] == ss[..j + 2] && events[..j + 1] == es[..j + 1]
    ensures !AtMostOneWake(more[j + 3])
  {
    assert Linked(ss, es, j);
    InterruptedStillWaking(ss[j], es[j]);
    var id := SleepingUnderWakeAdmitsSecond(ss[j + 1]);
    var s1 := Next(ss[j + 1], Spawn(id, WakeStart));
    RunPrefix(ss, es, j + 1);
    RunExtends(ss[..j + 2], es[..j + 1], Spawn(id, WakeStart));
    RunExtends(ss[..j + 2] + [s1], es[..j + 1] + [Spawn(id, WakeStart)], Step(id, Errs));
    more := ss[..j + 2] + [s1] + [Next(s1, Step(id, Errs))];
    events := es[..j + 1] + [Spawn(id, WakeStart)] + [Step(id, Errs)];
  }

  lemma InterruptedStillWaking(s: System, e: Event)
    requires Enabled(s, e) && Interrupts(s, e)
    ensures SomeWake(Next(s, e)) && Next(s, e).memory.state == StateSleeping
  {
    var x :| x in s.threads && ActiveWake(s.threads[x]);
    assert x != e.id && Next(s, e).threads[x] == s.threads[x];
  }

  lemma RunPrefix(ss: seq<System>, es: seq<Event>, n: nat)
    requires IsRun(ss, es) && n <= |es|
    ensures IsRun(ss[..n + 1], es[..n])
  {
    var states, events := ss[..n + 1], es[..n];
    forall i | 0 <= i < n
      ensures Linked(states, events, i)
    {
      assert Linked(ss, es, i);
    }
  }

  /**
   In every run: a refresh that has read Sleeping or Hibernating puts a proxy that is not Waking to Sleeping at 0, and
   the next wake to start from there becomes active.
   */
  lemma RefreshedThenWakes(ss: seq<System>, es: seq<Event>, i: nat, k: nat)
    requires IsRun(ss, es) && i < k < |es| && ss[k].memory.state == ss[i + 1].memory.state
    requires es[i].Step? && es[i].id in ss[i].threads && ss[i].threads[es[i].id].RefreshApply?
    requires var seen := ss[i].threads[es[i].id].seen; seen.state == Sleeping || seen.state == Hibernating
    requires ss[i].memory.state != StateWaking
    requires es[k].Step? && es[k].id in ss[k].threads && ss[k].threads[es[k].id].WakeStart?
    ensures ss[i + 1].memory == Memory(StateSleeping, WakeStatus(StateSleeping, 0))
    ensures ss[k + 1].memory.state == StateWaking
    ensures es[k].id in ss[k + 1].threads && ActiveWake(ss[k + 1].threads[es[k].id])
  {
    assert Linked(ss, es, i) && Linked(ss, es, k);
    RefreshOnFields(ss[i].memory, ss[i].threads[es[i].id].seen.state);
  }

  const IDLE := System(FRESH, ZERO, map[])

  /** A wake, a hibernation that has set Sleeping, and a second wake. */
  const TWO_WAKES := System(
    FRESH, Memory(StateWaking, WakeStatus(StateSleeping, 50)),
    map[0 := WakeAnnounce, 1 := SleepGet, 2 := WakeAnnounce])

  lemma RunExtends(ss: seq<System>, es: seq<Event>, e: Event)
    requires IsRun(ss, es) && Enabled(ss[|es|], e)
    ensures IsRun(ss + [Next(ss[|es|], e)], es + [e])
  {
    var longer, events := ss + [Next(ss[|es|], e)], es + [e];
    forall i | 0 <= i < |events|
      ensures Linked(longer, events, i)
    {
      assert i < |es| ==> Linked(ss, es, i);
    }
  }

  lemma TwoWakesHappen() returns (ss: seq<System>, es: seq<Event>)
    ensures IsRun(ss, es) && |es| == 7 && ss[7] == TWO_WAKES
  {
    es := [Spawn(0, WakeStart), Step(0, Errs), Spawn(1, SleepStart), Step(1, Errs), Step(1, Errs),
           Spawn(2, WakeStart), Step(2, Errs)];
    var s1 := Next(IDLE, es[0]);
    var s2 := Next(s1, es[1]);
    var s3 := Next(s2, es[2]);
    var s4 := Next(s3, es[3]);
    var s5 := Next(s4, es[4]);
    var s6 := Next(s5, es[5]);
    ss := [IDLE, s1, s2, s3, s4, s5, s6, Next(s6, es[6])];
  }

  /**
   From there the first wake gives up and writes Sleeping over the second one, which is still active.
   */
  lemma OldWakeOverwritesNewer() returns (ss: seq<System>, es: seq<Event>)
    ensures IsRun(ss, es) && |ss| == 11
    ensures ss[7].threads.Keys == {0, 1, 2} && ActiveWake(ss[7].threads[0]) && ActiveWake(ss[7].threads[2])
    ensures ss[10].memory.state == StateSleeping && 2 in ss[10].threads && BeforeAwake(ss[10].threads[2])
  {
    ss, es := TwoWakesHappen();
    for n := 7 to 10
      invariant IsRun(ss, es) && |es| == n && ss[7] == TWO_WAKES
      invariant 2 in ss[n].threads && ss[n].threads[2] == WakeAnnounce
      invariant 0 in ss[n].threads && ss[n].threads[0] == [WakeAnnounce, WakeGet, WakeRefused, Done][n - 7]
      invariant n == 10 ==> ss[n].memory.state == StateSleeping
    {
      RunExtends(ss, es, Step(0, Errs));
      ss, es := ss + [Next(ss[n], Step(0, Errs))], es + [Step(0, Errs)];
    }
  }

  // ------------------------------------------------------------ a thread on its own

  /** What a thread finds at one of its steps: the stored status of that moment, and the answer it gets. */
  datatype Input = Input(cell: Cell, answer: Answer)

  datatype Solo = Solo(memory: Memory, thread: Thread)

  const ANY := Input(FRESH, Errs)

  /** Steps of one thread while no other thread touches the proxy's memory. */
  function Alone(m: Memory, th: Thread, inputs: seq<Input>): Solo
    decreases |inputs|
  {
    if inputs == [] then Solo(m, th) else
    var x := Act(inputs[0].cell, m, th, inputs[0].answer);
    Alone(x.memory, x.thread, inputs[1..])
  }

  lemma {:induction false} AloneJoins(m: Memory, th: Thread, a: seq<Input>, b: seq<Input>)
    ensures Alone(m, th, a + b) == var mid := Alone(m, th, a); Alone(mid.memory, mid.thread, b)
    decreases |a|
  {
    if a == [] {
      assert a + b == b;
    } else {
      var x := Act(a[0].cell, m, th, a[0].answer);
      assert (a + b)[0] == a[0] && (a + b)[1..] == a[1..] + b;
      AloneJoins(x.memory, x.thread, a[1..], b);
    }
  }

  /** One poll: not readable, or a status that is read and reported. */
  function Poll(poll: Option<Status>): seq<Input> {
    match poll
    case None => [ANY]
    case Some(st) => [Input(Cell(st, 0, []), Works([])), ANY]
  }

  function Polls(polls: seq<Option<Status>>): seq<Input> {
    if polls == [] then [] else Poll(polls[0]) + Polls(polls[1..])
  }

  /** What a poll shows: the share of ready components, mapped to the wake's part of the bar. */
  lemma PollShows(m: Memory, st: Status)
    ensures Alone(m, WakePoll, Poll(Some(st))) ==
            Solo(Memory(StateWaking, WakeStatus(StateWaking, 10 + PollProgress(st) * 85 / 100)),
                 if st.state == Awake then WakeReady(st) else WakePoll)
    ensures Alone(m, WakePoll, Poll(None)) == Solo(m, WakePoll)
  {
    var first := Act(Cell(st, 0, []), m, WakePoll, Works([]));
    assert Poll(Some(st))[1..] == [ANY] && [ANY][1..] == [];
    assert Alone(first.memory, first.thread, [ANY]) ==
           var x := Act(FRESH, first.memory, first.thread, Errs); Solo(x.memory, x.thread);
  }

  /** As long as no poll sees Awake the wake goes on polling. */
  lemma {:induction false} GoesOnPolling(m: Memory, polls: seq<Option<Status>>)
    requires !SeesAwake(polls)
    ensures Alone(m, WakePoll, Polls(polls)).thread == WakePoll
    decreases |polls|
  {
    if polls != [] {
      PollShows(m, if polls[0].Some? then polls[0].value else Status(Unset, Unset, []));
      AloneJoins(m, WakePoll, Poll(polls[0]), Polls(polls[1..]));
      assert polls[0].Some? ==> polls[0].value.state != Awake;
      GoesOnPolling(Alone(m, WakePoll, Poll(polls[0])).memory, polls[1..]);
    }
  }

  /** The steps of a wake up to its first poll, its request being accepted. */
  function Request(cell: Cell): seq<Input> {
    [ANY, ANY, Input(cell, Works([])), Input(cell, Works([])), ANY]
  }

  lemma RequestPolls(m: Memory, cell: Cell)
    requires m.state == StateSleeping
    ensures Alone(m, WakeStart, Request(cell)) == Solo(Memory(StateWaking, WakeStatus(StateWaking, 10)), WakePoll)
  {
    var r := Request(cell);
    var got := Fetched(cell.status, cell.version);
    assert r[1..] == [ANY, Input(cell, Works([])), Input(cell, Works([])), ANY];
    assert r[1..][1..] == [Input(cell, Works([])), Input(cell, Works([])), ANY];
    assert r[1..][1..][1..] == [Input(cell, Works([])), ANY];
    assert r[1..][1..][1..][1..] == [ANY] && [ANY][1..] == [];
    var asked := Memory(StateWaking, WakeStatus(StateWaking, 5));
    assert Alone(m, WakeStart, r) == Alone(m.(state := StateWaking), WakeAnnounce, r[1..]);
    assert Alone(m.(state := StateWaking), WakeAnnounce, r[1..]) == Alone(asked, WakeGet, r[1..][1..]);
    assert Alone(asked, WakeGet, r[1..][1..]) == Alone(asked, WakePut(got), r[1..][1..][1..]);
    assert Alone(asked, WakeRequested, [ANY]) == Solo(Memory(StateWaking, WakeStatus(StateWaking, 10)), WakePoll);
    assert Alone(asked, WakePut(got), [Input(cell, Works([])), ANY]) == Alone(asked, WakeRequested, [ANY]);
  }

  /**
   A wake of a sleeping proxy whose request is accepted ends with the proxy Awake at 100, after any polls, as soon as
   one sees Awake.
   */
  lemma AloneWakes(m: Memory, cell: Cell, polls: seq<Option<Status>>, st: Status)
    requires m.state == StateSleeping && !SeesAwake(polls) && st.state == Awake
    ensures Alone(m, WakeStart, Request(cell) + (Polls(polls) + (Poll(Some(st)) + [ANY, ANY, ANY]))) ==
            Solo(Memory(StateAwake, WakeStatus(StateAwake, 100)), Done)
  {
    RequestPolls(m, cell);
    var asked := Memory(StateWaking, WakeStatus(StateWaking, 10));
    AloneJoins(m, WakeStart, Request(cell), Polls(polls) + (Poll(Some(st)) + [ANY, ANY, ANY]));
    GoesOnPolling(asked, polls);
    AloneJoins(asked, WakePoll, Polls(polls), Poll(Some(st)) + [ANY, ANY, ANY]);
    var polled := Alone(asked, WakePoll, Polls(polls)).memory;
    PollShows(polled, st);
    AloneJoins(polled, WakePoll, Poll(Some(st)), [ANY, ANY, ANY]);
    WakeEnds(Alone(polled, WakePoll, Poll(Some(st))).memory, st);
  }

  lemma WakeEnds(m: Memory, st: Status)
    ensures Alone(m, WakeReady(st), [ANY, ANY, ANY]) == Solo(Memory(StateAwake, WakeStatus(StateAwake, 100)), Done)
  {
    assert [ANY, ANY, ANY][1..] == [ANY, ANY] && [ANY, ANY][1..] == [ANY] && [ANY][1..] == [];
    var shown := Memory(StateWaking, WakeStatus(StateWaking, 95));
    var set_ := Memory(StateAwake, WakeStatus(StateWaking, 95));
    assert Alone(set_, WakeAnnounceAwake(st), [ANY]) == Solo(Memory(StateAwake, WakeStatus(StateAwake, 100)), Done);
    assert Alone(shown, WakeSetAwake(st), [ANY, ANY]) == Alone(set_, WakeAnnounceAwake(st), [ANY]);
  }

  /** When the time runs out before a poll sees Awake, it ends with the proxy Sleeping at 0. */
  lemma AloneGivesUp(m: Memory, cell: Cell, polls: seq<Option<Status>>)
    requires m.state == StateSleeping && !SeesAwake(polls)
    ensures Alone(m, WakeStart, Request(cell) + (Polls(polls) + [Input(cell, TimesOut), ANY])) == Solo(ZERO, Done)
  {
    RequestPolls(m, cell);
    var asked := Memory(StateWaking, WakeStatus(StateWaking, 10));
    AloneJoins(m, WakeStart, Request(cell), Polls(polls) + [Input(cell, TimesOut), ANY]);
    GoesOnPolling(asked, polls);
    AloneJoins(asked, WakePoll, Polls(polls), [Input(cell, TimesOut), ANY]);
    var polled := Alone(asked, WakePoll, Polls(polls)).memory;
    assert [Input(cell, TimesOut), ANY][1..] == [ANY] && [ANY][1..] == [];
    assert Alone(polled, WakeRefused, [ANY]) == Solo(ZERO, Done);
  }

  /** A request that cannot be read back or written ends the wake with the proxy Sleeping at 0. */
  lemma AloneRefused(m: Memory, cell: Cell)
    requires m.state == StateSleeping
    ensures Alone(m, WakeStart, [ANY, ANY, ANY, ANY]) == Solo(ZERO, Done)
    ensures Alone(m, WakePut(Fetched(cell.status, cell.version)), [ANY, ANY]) == Solo(ZERO, Done)
  {
    assert [ANY, ANY, ANY, ANY][1..] == [ANY, ANY, ANY] && [ANY, ANY, ANY][1..] == [ANY, ANY];
    assert [ANY, ANY][1..] == [ANY] && [ANY][1..] == [];
    var asked := Memory(StateWaking, WakeStatus(StateWaking, 5));
    assert Alone(asked, WakeRefused, [ANY]) == Solo(ZERO, Done);
    assert Alone(asked, WakeGet, [ANY, ANY]) == Alone(asked, WakeRefused, [ANY]);
    assert Alone(m.(state := StateWaking), WakeAnnounce, [ANY, ANY, ANY]) == Alone(asked, WakeGet, [ANY, ANY]);
    assert Alone(m, WakeRefused, [ANY]) == Solo(ZERO, Done);
  }

  const HIBERNATING := Memory(StateSleeping, WakeStatus(StateSleeping, 50))

  lemma SleepBegins(m: Memory, cell: Cell)
    requires m.state != StateSleeping
    ensures Alone(m, SleepStart, [ANY, ANY, Input(cell, Works([]))]) ==
            Solo(HIBERNATING, SleepPut(Fetched(cell.status, cell.version)))
  {
    var got := Input(cell, Works([]));
    assert [ANY, ANY, got][1..] == [ANY, got] && [ANY, got][1..] == [got] && [got][1..] == [];
    assert Alone(HIBERNATING, SleepGet, [got]) == Solo(HIBERNATING, SleepPut(Fetched(cell.status, cell.version)));
    assert Alone(m, SleepAnnounce, [ANY, got]) == Alone(HIBERNATING, SleepGet, [got]);
  }

  lemma SleepEnds(f: Fetched, put: Input)
    ensures Alone(HIBERNATING, SleepPut(f), [put, ANY, ANY]) == Solo(ZERO, Done)
  {
    assert [put, ANY, ANY][1..] == [ANY, ANY] && [ANY, ANY][1..] == [ANY] && [ANY][1..] == [];
    assert Alone(HIBERNATING, SleepFinish, [ANY]) == Solo(ZERO, Done);
    assert Alone(HIBERNATING, SleepSet, [ANY, ANY]) == Alone(HIBERNATING, SleepFinish, [ANY]);
  }

  /** A hibernation of a proxy that does not sleep ends with it Sleeping at 0, whether or not its write works. */
  lemma AloneSleeps(m: Memory, cell: Cell, put: Input)
    requires m.state != StateSleeping
    ensures Alone(m, SleepStart, [ANY, ANY, Input(cell, Works([]))] + [put, ANY, ANY]) == Solo(ZERO, Done)
  {
    AloneJoins(m, SleepStart, [ANY, ANY, Input(cell, Works([]))], [put, ANY, ANY]);
    SleepBegins(m, cell);
    SleepEnds(Fetched(cell.status, cell.version), put);
  }

  /** When the status cannot be read, the hibernation ends the same way without a write. */
  lemma AloneSleepsUnread(m: Memory)
    requires m.state != StateSleeping
    ensures Alone(m, SleepStart, [ANY, ANY, ANY] + [ANY, ANY]) == Solo(ZERO, Done)
  {
    AloneJoins(m, SleepStart, [ANY, ANY, ANY], [ANY, ANY]);
    assert [ANY, ANY, ANY][1..] == [ANY, ANY] && [ANY, ANY][1..] == [ANY] && [ANY][1..] == [];
    assert Alone(HIBERNATING, SleepGet, [ANY]) == Solo(HIBERNATING, SleepSet);
    assert Alone(m, SleepAnnounce, [ANY, ANY]) == Alone(HIBERNATING, SleepGet, [ANY]);
    assert Alone(HIBERNATING, SleepFinish, [ANY]) == Solo(ZERO, Done);
    assert Alone(HIBERNATING, SleepSet, [ANY, ANY]) == Alone(HIBERNATING, SleepFinish, [ANY]);
  }

  /**
   A request is forwarded at once by an Awake proxy and never by another; a held one is forwarded as soon as it finds
   the proxy Awake, unless its time runs out.
   */
  lemma AloneRequest(m: Memory, x: Input)
    ensures var first := Alone(m, RequestArrive, [x]);
            && first.memory == m
            && (first.thread.RequestForward? <==> m.state == StateAwake)
            && (first.thread.RequestHeld? <==> m.state != StateAwake && x.answer.Works?)
    ensures var next := Alone(m, RequestHeld, [x]);
            && next.memory == m
            && (next.thread.RequestForward? <==> m.state == StateAwake && !x.answer.TimesOut?)
            && (next.thread.RequestHeld? <==> m.state != StateAwake && !x.answer.TimesOut?)
    ensures Alone(m, RequestForward, [x]) == Solo(m, if x.answer.Errs? then RefreshGet else Done)
  {
    assert [x][1..] == [];
  }

  /** A refresh that can read a stored state applies it, and one that cannot changes nothing. */
  lemma AloneRefreshes(m: Memory, cell: Cell, x: Input)
    ensures Alone(m, RefreshGet, [Input(cell, Works([])), x]) ==
            Solo(if cell.status.state == Awake then Memory(StateAwake, WakeStatus(StateAwake, 100))
                 else if m.state == StateWaking || cell.status.state == Unset || cell.status.state == Error then m
                 else if cell.status.state == Waking then Memory(StateWaking, WakeStatus(StateWaking, 50))
                 else Memory(StateSleeping, WakeStatus(StateSleeping, 0)),
                 Done)
    ensures Alone(m, RefreshGet, [Input(cell, Errs), x]) == Solo(m, Done)
  {
    RefreshOnFields(m, cell.status.state);
    assert [Input(cell, Works([])), x][1..] == [x] && [Input(cell, Errs), x][1..] == [x] && [x][1..] == [];
    assert Alone(m, Done, [x]) == Solo(m, Done);
    assert Alone(m, RefreshApply(cell.status), [x]) == Solo(Refresh(m, cell.status.state), Done);
  }

  // ------------------------------------------------------------ a run from the first request to its answer

  ghost predicate IsPath(ss: seq<System>, es: seq<Event>) {
    |ss| == |es| + 1 && forall i | 0 <= i < |es| :: Linked(ss, es, i)
  }

  lemma PathsJoin(ss: seq<System>, es: seq<Event>, more: seq<System>, events: seq<Event>)
    requires IsPath(ss, es) && IsPath(more, events) && ss[|es|] == more[0]
    ensures IsPath(ss + more[1..], es + events)
    ensures (ss + more[1..])[|es + events|] == more[|events|]
  {
    var states, all := ss + more[1..], es + events;
    forall i | 0 <= i < |all|
      ensures Linked(states, all, i)
    {
      if i < |es| {
        assert Linked(ss, es, i);
      } else {
        assert Linked(more, events, i - |es|);
      }
    }
  }

  const EMPTY_AWAKE := Status(Awake, Awake, [])

  const REQUESTED := System(
    Cell(Status(Awake, Unset, []), 1, [ByProxy(Awake)]), Memory(StateWaking, WakeStatus(StateWaking, 5)),
    map[0 := WakeRequested])

  const RECORDED := System(
    Cell(EMPTY_AWAKE, 2, [ByProxy(Awake), ByController(Awake, [])]), Memory(StateWaking, WakeStatus(StateWaking, 10)),
    map[0 := WakeReport(EMPTY_AWAKE), 1 := ControllerGet])

  lemma WakeIsRequested() returns (ss: seq<System>, es: seq<Event>)
    ensures IsPath(ss, es) && ss[0] == IDLE && ss[|es|] == REQUESTED
  {
    es := [Spawn(0, WakeStart), Step(0, Errs), Step(0, Errs), Step(0, Works([])), Step(0, Works([]))];
    var s1 := Next(IDLE, es[0]);
    var s2 := Next(s1, es[1]);
    var s3 := Next(s2, es[2]);
    var s4 := Next(s3, es[3]);
    ss := [IDLE, s1, s2, s3, s4, Next(s4, es[4])];
    assert ss[5].cell.log == [ByProxy(Awake)];
  }

  lemma AwakeIsRecorded() returns (ss: seq<System>, es: seq<Event>)
    ensures IsPath(ss, es) && ss[0] == REQUESTED && ss[|es|] == RECORDED
  {
    es := [Spawn(1, ControllerGet), Step(1, Errs), Step(1, Works([])), Step(0, Errs), Step(0, Works([]))];
    var s1 := Next(REQUESTED, es[0]);
    var s2 := Next(s1, es[1]);
    var s3 := Next(s2, es[2]);
    var s4 := Next(s3, es[3]);
    ss := [REQUESTED, s1, s2, s3, s4, Next(s4, es[4])];
    assert ss[5].cell.log == [ByProxy(Awake), ByController(Awake, [])];
  }

  const AWOKEN := System(
    RECORDED.cell, Memory(StateAwake, WakeStatus(StateAwake, 100)), map[0 := Done, 1 := ControllerGet])

  lemma ProxyFollows() returns (ss: seq<System>, es: seq<Event>)
    ensures IsPath(ss, es) && ss[0] == RECORDED && ss[|es|] == AWOKEN
  {
    es := [Step(0, Errs), Step(0, Errs), Step(0, Errs), Step(0, Errs)];
    var s1 := Next(RECORDED, es[0]);
    var s2 := Next(s1, es[1]);
    var s3 := Next(s2, es[2]);
    ss := [RECORDED, s1, s2, s3, Next(s3, es[3])];
  }

  lemma RequestFollows() returns (ss: seq<System>, es: seq<Event>)
    ensures IsPath(ss, es) && ss[0] == AWOKEN && ss[|es|].memory == AWOKEN.memory
    ensures 2 in ss[|es|].threads && ss[|es|].threads[2].RequestForward?
  {
    es := [Spawn(2, RequestArrive), Step(2, Errs)];
    var s1 := Next(AWOKEN, es[0]);
    ss := [AWOKEN, s1, Next(s1, es[1])];
  }

  /** From a status nobody has written: a wake, a reconcile that records Awake, and a request that is forwarded. */
  lemma RequestIsAnswered() returns (ss: seq<System>, es: seq<Event>)
    ensures IsRun(ss, es) && ss[0] == IDLE
    ensures ss[|es|].memory == Memory(StateAwake, WakeStatus(StateAwake, 100))
    ensures exists id :: id in ss[|es|].threads && ss[|es|].threads[id].RequestForward?
  {
    ss, es := WakeIsRequested();
    var s2, e2 := AwakeIsRecorded();
    PathsJoin(ss, es, s2, e2);
    ss, es := ss + s2[1..], es + e2;
    var s3, e3 := ProxyFollows();
    PathsJoin(ss, es, s3, e3);
    ss, es := ss + s3[1..], es + e3;
    var s4, e4 := RequestFollows();
    PathsJoin(ss, es, s4, e4);
    ss, es := ss + s4[1..], es + e4;
  }
}
