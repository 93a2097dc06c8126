/** The proxy's in-memory state: what each section under its lock does. */
module WakeProxy {
  import opened Types

  datatype State = StateSleeping | StateWaking | StateAwake

  datatype WakeStatus = WakeStatus(state: State, progress: int)

  datatype Memory = Memory(state: State, wakeStatus: WakeStatus)

  const ZERO := Memory(StateSleeping, WakeStatus(StateSleeping, 0))

  // ------------------------------------------------------------ progress arithmetic

  function ReadyCount(components: seq<ComponentStatus>): (n: nat)
    ensures n <= |components|
    ensures n == |components| <==> AllReady(components)
  {
    if components == [] then 0 else
    var front, last := components[..|components| - 1], components[|components| - 1];
    assert components == front + [last];
    assert forall i | 0 <= i < |front| :: front[i] == components[i];
    ReadyCount(front) + if last.ready then 1 else 0
  }

  /** Percentage of ready components, kept at 95 until the service is Awake. */
  function PollProgress(st: Status): (p: int)
    ensures 0 <= p <= 100
    ensures p == 100 ==> st.state == Awake && AllReady(st.components)
    ensures p > 95 ==> st.state == Awake
  {
    var total := |st.components|;
    var percent := if total > 0 then ReadyCount(st.components) * 100 / total else 0;
    PercentInRange(ReadyCount(st.components), total);
    if percent > 95 && st.state != Awake then 95 else percent
  }

  lemma PercentInRange(n: nat, total: nat)
    requires n <= total
    ensures total > 0 ==> 0 <= n * 100 / total <= 100
    ensures total > 0 ==> (n * 100 / total == 100 <==> n == total)
  {
  }

  function ReadyAt(components: seq<ComponentStatus>): (positions: set<nat>) {
    set i: nat | i < |components| && components[i].ready
  }

  lemma {:induction false} ReadyCountIsSize(components: seq<ComponentStatus>)
    ensures ReadyCount(components) == |ReadyAt(components)|
  {
    if components != [] {
      var n := |components| - 1;
      var front := components[..n];
      ReadyCountIsSize(front);
      assert ReadyAt(components) == ReadyAt(front) + if components[n].ready then {n as nat} else {};
    }
  }

  /** The ready part in percent, rounded down; not above 95 before Awake; 0 without components. */
  lemma PollProgressOnFields(st: Status)
    ensures var n, total, p := |set i: nat | i < |st.components| && st.components[i].ready|, |st.components|,
                               PollProgress(st);
            && (total == 0 ==> p == 0)
            && (total > 0 && (st.state == Awake || n * 100 < 96 * total) ==>
                  p * total <= n * 100 < (p + 1) * total)
            && (total > 0 && st.state != Awake && n * 100 >= 96 * total ==> p == 95)
  {
    ReadyCountIsSize(st.components);
    var n, total := ReadyCount(st.components), |st.components|;
    assert n == |set i: nat | i < |st.components| && st.components[i].ready|;
    if total > 0 {
      RoundedDown(n * 100, total);
      if n * 100 >= 96 * total {
        AtLeast(n * 100, total, 96);
      } else {
        Below(n * 100, total, 96);
      }
    }
  }

  lemma RoundedDown(a: nat, b: nat)
    requires b > 0
    ensures a / b * b <= a < (a / b + 1) * b
  {
  }

  lemma AtLeast(a: nat, b: nat, q: nat)
    requires b > 0 && a >= q * b
    ensures a / b >= q
  {
    RoundedDown(a, b);
    var r := a / b;
    assert r < q ==> (r + 1) * b <= q * b;
  }

  lemma Below(a: nat, b: nat, q: nat)
    requires b > 0 && a < q * b
    ensures a / b < q
  {
    RoundedDown(a, b);
    var r := a / b;
    assert r >= q ==> q * b <= r * b;
  }

  /** The wake sequence's share of the progress bar. */
  function MappedProgress(progress: int): int {
    10 + progress * 85 / 100
  }

  // ------------------------------------------------------------ sections under the lock

  function UpdateStatus(m: Memory, state: State, progress: int): Memory {
    Memory(state, WakeStatus(state, progress))
  }

  /** Locked half of `checkAndUpdateState`. */
  function Refresh(m: Memory, persisted: ServiceState): Memory {
    match persisted
    case Awake => UpdateStatus(m, StateAwake, 100)
    case Waking => if m.state != StateWaking then UpdateStatus(m, StateWaking, 50) else m
    case Sleeping => if m.state != StateWaking then UpdateStatus(m, StateSleeping, 0) else m
    case Hibernating => if m.state != StateWaking then UpdateStatus(m, StateSleeping, 0) else m
    case _ => m
  }

  /** What the proxy starts serving with: the refresh of `main` may have failed. */
  function Startup(persisted: Option<ServiceState>): Memory {
    if persisted.Some? then Refresh(ZERO, persisted.value) else ZERO
  }

  /** The progress bar agrees with the phase it is shown for. */
  predicate ProgressOk(w: WakeStatus) {
    && (w.progress == 100 <==> w.state == StateAwake)
    && (w.state == StateSleeping ==> w.progress == 0 || w.progress == 50)
    && (w.state == StateWaking ==> 5 <= w.progress <= 95)
  }

  lemma MappedInRange(p: int)
    requires 0 <= p <= 100
    ensures 10 <= MappedProgress(p) <= 95
    ensures MappedProgress(0) == 10 && MappedProgress(100) == 95
    ensures 100 * (MappedProgress(p) - 10) <= 85 * p < 100 * (MappedProgress(p) - 9)
  {
  }

  /** Awake counts at once; the other stored states leave a Waking proxy alone; Unset and Error say nothing. */
  lemma RefreshOnFields(m: Memory, persisted: ServiceState)
    ensures Refresh(m, persisted) ==
            if persisted == Awake then Memory(StateAwake, WakeStatus(StateAwake, 100))
            else if m.state == StateWaking || persisted == Unset || persisted == Error then m
            else if persisted == Waking then Memory(StateWaking, WakeStatus(StateWaking, 50))
            else Memory(StateSleeping, WakeStatus(StateSleeping, 0))
  {
  }

  // ------------------------------------------------------------ the proxy, one thread at a time

  ghost predicate SeesAwake(polls: seq<Option<Status>>) {
    exists i :: 0 <= i < |polls| && polls[i].Some? && polls[i].value.state == Awake
  }

  class Proxy {
    var state: State
    var wakeStatus: WakeStatus
    // Every status that has been broadcast, in order.
    ghost var shown: seq<WakeStatus>

    constructor ()
      ensures Held() == ZERO && shown == []
    {
      state, wakeStatus, shown := StateSleeping, WakeStatus(StateSleeping, 0), [];
    }

    function Held(): Memory
      reads this
    {
      Memory(state, wakeStatus)
    }

    method SetStatus(newState: State, progress: int)
      modifies this
      ensures Held() == UpdateStatus(old(Held()), newState, progress)
      ensures shown == old(shown) + [wakeStatus]
    {
      state := newState;
      wakeStatus := WakeStatus(newState, progress);
      shown := shown + [wakeStatus];
    }

    /**
     A stored Awake sets Awake at 100.  Unless the proxy is Waking, a stored Waking sets Waking at 50 and a stored
     Sleeping or Hibernating sets Sleeping at 0.  Nothing else changes anything, and nothing is broadcast.
     */
    method CheckAndUpdateState(persisted: ServiceState)
      modifies this
      ensures Held() == Refresh(old(Held()), persisted) && shown == old(shown)
      ensures persisted == Awake ==> state == StateAwake && wakeStatus == WakeStatus(StateAwake, 100)
      ensures (persisted == Sleeping || persisted == Hibernating) && old(state) != StateWaking ==>
                state == StateSleeping && wakeStatus == WakeStatus(StateSleeping, 0)
      ensures persisted == Waking && old(state) != StateWaking ==>
                state == StateWaking && wakeStatus == WakeStatus(StateWaking, 50)
      ensures persisted != Awake && old(state) == StateWaking ==> Held() == old(Held())
      ensures persisted == Unset || persisted == Error ==> Held() == old(Held())
      ensures old(ProgressOk(wakeStatus)) ==> ProgressOk(wakeStatus)
      ensures Held() == old(Held()) || state == wakeStatus.state
      ensures old(state) != StateAwake && state == StateAwake ==> persisted == Awake
      ensures old(state) == StateWaking && state != StateWaking ==> persisted == Awake
    {
      match persisted {
        case Awake =>
          state := StateAwake;
          wakeStatus := WakeStatus(StateAwake, 100);
        case Waking =>
          if state != StateWaking {
            state := StateWaking;
            wakeStatus := WakeStatus(StateWaking, 50);
          }
        case Sleeping =>
          if state != StateWaking {
            state := StateSleeping;
            wakeStatus := WakeStatus(StateSleeping, 0);
          }
        case Hibernating =>
          if state != StateWaking {
            state := StateSleeping;
            wakeStatus := WakeStatus(StateSleeping, 0);
          }
        case _ =>
      }
    }

    /** First section of `triggerWake`: only a sleeping proxy starts a wake sequence. */
    method TryStartWake() returns (started: bool)
      modifies this`state
      ensures started == (old(state) == StateSleeping)
      ensures state == if started then StateWaking else old(state)
    {
      if state == StateWaking || state == StateAwake {
        return false;
      }
      state := StateWaking;
      return true;
    }

    /** Polls until the stored state is Awake or the polls run out; a poll that cannot be read is skipped. */
    method WaitForAwake(polls: seq<Option<Status>>) returns (awake: bool)
      modifies this
      ensures awake <==> SeesAwake(polls)
      ensures old(shown) <= shown
      ensures forall i | |old(shown)| <= i < |shown| :: shown[i].state == StateWaking && ProgressOk(shown[i])
    {
      for i := 0 to |polls|
        invariant old(shown) <= shown && !SeesAwake(polls[..i])
        invariant forall j | |old(shown)| <= j < |shown| :: shown[j].state == StateWaking && ProgressOk(shown[j])
      {
        if polls[i].Some? {
          var progress := CountReady(polls[i].value);
          MappedInRange(progress);
          SetStatus(StateWaking, MappedProgress(progress));
          if polls[i].value.state == Awake {
            return true;
          }
        }
      }
      assert polls[..|polls|] == polls;
      return false;
    }

    /**
     `triggerWake` without another thread in between: it does nothing unless the proxy sleeps; then it ends Awake
     exactly when the request was stored and a poll saw Awake, and Sleeping otherwise.  All that it shows is in range.
     */
    method TriggerWake(requested: bool, polls: seq<Option<Status>>) returns (started: bool, awake: bool)
      modifies this
      ensures started <==> old(state) == StateSleeping
      ensures !started ==> Held() == old(Held()) && shown == old(shown)
      ensures started ==> (awake <==> requested && SeesAwake(polls))
      ensures started ==>
                Held() == if awake then Memory(StateAwake, WakeStatus(StateAwake, 100)) else ZERO
      ensures old(shown) <= shown && forall i | |old(shown)| <= i < |shown| :: ProgressOk(shown[i])
      ensures started ==> |shown| >= |old(shown)| + 2 && shown[|shown| - 1] == wakeStatus
    {
      awake := false;
      started := TryStartWake();
      if !started {
        return;
      }
      SetStatus(StateWaking, 5);
      if !requested {
        SetStatus(StateSleeping, 0);
        return;
      }
      SetStatus(StateWaking, 10);
      awake := WaitForAwake(polls);
      if !awake {
        SetStatus(StateSleeping, 0);
        return;
      }
      SetStatus(StateWaking, 95);
      state := StateAwake;
      SetStatus(StateAwake, 100);
    }

    /** `hibernate` without another thread in between, whether or not its request is stored. */
    method Hibernate()
      modifies this
      ensures state == StateSleeping
      ensures old(state) == StateSleeping ==> Held() == old(Held()) && shown == old(shown)
      ensures old(state) != StateSleeping ==>
                Held() == ZERO && shown == old(shown) + [WakeStatus(StateSleeping, 50), ZERO.wakeStatus]
    {
      if state == StateSleeping {
        return;
      }
      SetStatus(StateSleeping, 50);
      state := StateSleeping;
      SetStatus(StateSleeping, 0);
    }
  }

  /** The counting loop of one poll. */
  method CountReady(st: Status) returns (progress: int)
    ensures progress == PollProgress(st)
    ensures var n, total := |set i: nat | i < |st.components| && st.components[i].ready|, |st.components|;
            && (total == 0 ==> progress == 0)
            && (total > 0 && (st.state == Awake || n * 100 < 96 * total) ==>
                  progress * total <= n * 100 < (progress + 1) * total)
            && (total > 0 && st.state != Awake && n * 100 >= 96 * total ==> progress == 95)
  {
    PollProgressOnFields(st);
    var readyCount := 0;
    var totalCount := |st.components|;
    for i := 0 to |st.components|
      invariant readyCount == ReadyCount(st.components[..i])
    {
      assert st.components[..i + 1][..i] == st.components[..i];
      if st.components[i].ready {
        readyCount := readyCount + 1;
      }
    }
    assert st.components[..|st.components|] == st.components;
    progress := 0;
    if totalCount > 0 {
      progress := readyCount * 100 / totalCount;
    }
    if progress > 95 && st.state != Awake {
      progress := 95;
    }
  }
}
