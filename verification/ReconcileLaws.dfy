/** What one reconcile guarantees: the composition of status update and state decision. */
module ReconcileLaws {
  import opened Types
  import opened Walks
  import opened Layering
  import opened Dependencies
  import opened Scaling
  import opened Reconciling

  /** The state machine that the two switches of the controller amount to when run one after the other. */
  function NextState(desired: ServiceState, state: ServiceState, ready: bool): ServiceState {
    if ready then (if desired == Sleeping || desired == Unset then Sleeping else Awake)
    else if state == Waking || desired == Awake then Waking
    else if state == Unset || state == Awake then Sleeping
    else state
  }

  /** A reconcile that does not fail stores its snapshot and the next state of the composite machine. */
  lemma CompositeStep(ns: string, cs: seq<Component>, levels: Levels, faults: Faults, st: Status, o: Objects)
    requires LevelsOf(cs, levels)
    ensures var r := Reconcile(ns, cs, levels, faults, st, o);
            var statuses := Observe(ns, cs, faults.unreadable, o);
            && (r.requeue == Failed ==> r.status == st)
            && (r.requeue != Failed ==>
                  r.status == Status(st.desired, NextState(st.desired, st.state, AllReady(statuses)), statuses))
            && (r.requeue == Soon ==> r.status.state == Waking)
            && (r.requeue == Later ==> r.status.state != Waking)
    ensures var r := Reconcile(ns, cs, levels, faults, st, o);
            var ready := forall i | 0 <= i < |cs| :: Observe(ns, cs, faults.unreadable, o)[i].ready;
            r.requeue != Failed ==>
              && (ready && (st.desired == Sleeping || st.desired == Unset) ==> r.status.state == Sleeping)
              && (ready && st.desired != Sleeping && st.desired != Unset ==> r.status.state == Awake)
              && (!ready && (st.state == Waking || st.desired == Awake) ==> r.status.state == Waking)
              && (!ready && st.state != Waking && st.desired != Awake ==>
                    r.status.state ==
                    if st.state == Hibernating then Hibernating else if st.state == Error then Error else Sleeping)
  {
  }

  /** The state machine reaches Awake exactly when all components are ready and nobody asks for sleep. */
  lemma AwakeIff(ns: string, cs: seq<Component>, levels: Levels, faults: Faults, st: Status, o: Objects)
    requires LevelsOf(cs, levels) && Reconcile(ns, cs, levels, faults, st, o).requeue != Failed
    ensures Reconcile(ns, cs, levels, faults, st, o).status.state == Awake <==>
            AllReady(Observe(ns, cs, faults.unreadable, o)) && st.desired != Sleeping && st.desired != Unset
  {
    CompositeStep(ns, cs, levels, faults, st, o);
  }

  /** Inside a full reconcile the decision never finds Waking with everything ready. */
  lemma WakingNeverAllReady(ns: string, cs: seq<Component>, unreadable: set<nat>, st: Status, o: Objects)
    ensures var st1 := Observed(st, Observe(ns, cs, unreadable, o));
            Current(st1) == Waking ==> !AllReady(st1.components)
  {
  }

  // ------------------------------------------------------------ going to sleep

  /** A scale that a scale-down can turn off: not a workload without an explicit count. */
  predicate CanSleep(kind: ComponentType, s: Scale) {
    kind.CNPGCluster? || (s.replicas.Some? && s.replicas.value >= 0)
  }

  predicate OffIn(ns: string, c: Component, o: Objects) {
    KeyOf(ns, c) in o && IsOff(c.kind, o[KeyOf(ns, c)].scale)
  }

  predicate CanSleepIn(ns: string, c: Component, o: Objects) {
    KeyOf(ns, c) in o && CanSleep(c.kind, o[KeyOf(ns, c)].scale)
  }

  lemma {:induction false} ScaleDownKeepsOff(ns: string, cs: seq<Component>, i: nat, o: Objects, c: Component)
    requires i <= |cs| && Present(ns, cs, o)
    ensures OffIn(ns, c, o) ==> OffIn(ns, c, ScaleDownAll(ns, cs, [], i, o).objects)
    ensures CanSleepIn(ns, c, o) <==> CanSleepIn(ns, c, ScaleDownAll(ns, cs, [], i, o).objects)
    decreases |cs| - i
  {
    if i < |cs| {
      ScaleDownKeepsOff(ns, cs, i + 1, ScaleDownOne(ns, cs[i], NoFault, o).objects, c);
    }
  }

  /** A faultless scale-down turns a component off exactly when its replica count was explicit. */
  lemma {:induction false} ScaleDownTurnsOff(ns: string, cs: seq<Component>, i: nat, o: Objects)
    requires i <= |cs| && Present(ns, cs, o)
    ensures var r := ScaleDownAll(ns, cs, [], i, o);
            && r.err.None? && SameHealth(o, r.objects)
            && forall j | i <= j < |cs| :: OffIn(ns, cs[j], r.objects) <==> CanSleepIn(ns, cs[j], o)
    decreases |cs| - i
  {
    if i < |cs| {
      var first := ScaleDownOne(ns, cs[i], NoFault, o).objects;
      var last := ScaleDownAll(ns, cs, [], i + 1, first).objects;
      ScaleDownTurnsOff(ns, cs, i + 1, first);
      forall j | i <= j < |cs|
        ensures OffIn(ns, cs[j], last) <==> CanSleepIn(ns, cs[j], o)
      {
        ScaleDownKeepsOff(ns, cs, i, o, cs[j]);
        ScaleDownKeepsOff(ns, cs, i + 1, first, cs[j]);
        assert j > i ==> (OffIn(ns, cs[j], last) <==> CanSleepIn(ns, cs[j], first));
      }
    }
  }

  lemma AllReadyMeansPresent(ns: string, cs: seq<Component>, unreadable: set<nat>, o: Objects)
    requires AllReady(Observe(ns, cs, unreadable, o))
    ensures Present(ns, cs, o)
  {
    var statuses := Observe(ns, cs, unreadable, o);
    forall i | 0 <= i < |cs|
      ensures KeyOf(ns, cs[i]) in o
    {
      assert statuses[i].ready;
    }
  }

  /** A scale-down that reports no error has met no fault that mattered. */
  lemma {:induction false} ScaleDownWithoutError(
    ns: string, cs: seq<Component>, faults: seq<Fault>, i: nat, o: Objects)
    requires i <= |cs| && ScaleDownAll(ns, cs, faults, i, o).err.None?
    ensures ScaleDownAll(ns, cs, faults, i, o) == ScaleDownAll(ns, cs, [], i, o)
    decreases |cs| - i
  {
    if i < |cs| {
      var first := ScaleDownOne(ns, cs[i], FaultAt(faults, i), o);
      assert first == ScaleDownOne(ns, cs[i], NoFault, o);
      ScaleDownWithoutError(ns, cs, faults, i + 1, first.objects);
    }
  }

  /** A reconcile that ends in Sleeping has scaled everything down or nothing at all. */
  lemma SleepingObjects(ns: string, cs: seq<Component>, levels: Levels, faults: Faults, st: Status, o: Objects)
    requires LevelsOf(cs, levels)
    requires Reconcile(ns, cs, levels, faults, st, o).status.state == Sleeping
    requires Reconcile(ns, cs, levels, faults, st, o).requeue != Failed
    ensures Reconcile(ns, cs, levels, faults, st, o).objects ==
            if AllReady(Observe(ns, cs, faults.unreadable, o)) then ScaleDownAll(ns, cs, [], 0, o).objects else o
  {
    CompositeStep(ns, cs, levels, faults, st, o);
    if AllReady(Observe(ns, cs, faults.unreadable, o)) {
      ScaleDownWithoutError(ns, cs, faults.scaling, 0, o);
    }
  }

  predicate AllOff(ns: string, cs: seq<Component>, o: Objects) {
    forall i | 0 <= i < |cs| :: OffIn(ns, cs[i], o)
  }

  predicate AllCanSleep(ns: string, cs: seq<Component>, o: Objects) {
    forall i | 0 <= i < |cs| :: CanSleepIn(ns, cs[i], o)
  }

  /**
   "Sleeping" promises that every component is off.  After any reconcile that does not fail and ends in Sleeping
   the promise holds exactly when this reconcile read everything as ready and every replica count was explicit, or
   everything was off beforehand.
   */
  lemma SleepingMeansOffIff(ns: string, cs: seq<Component>, levels: Levels, faults: Faults, st: Status, o: Objects)
    requires LevelsOf(cs, levels)
    requires Reconcile(ns, cs, levels, faults, st, o).status.state == Sleeping
    requires Reconcile(ns, cs, levels, faults, st, o).requeue != Failed
    ensures AllOff(ns, cs, Reconcile(ns, cs, levels, faults, st, o).objects) <==>
            if AllReady(Observe(ns, cs, faults.unreadable, o)) then AllCanSleep(ns, cs, o) else AllOff(ns, cs, o)
  {
    SleepingObjects(ns, cs, levels, faults, st, o);
    if AllReady(Observe(ns, cs, faults.unreadable, o)) {
      AllReadyMeansPresent(ns, cs, faults.unreadable, o);
      ScaleDownTurnsOff(ns, cs, 0, o);
    }
  }

  /** A sleep request is honoured by the first reconcile that finds everything ready, Waking or not. */
  lemma SleepHonouredWhenReady(ns: string, cs: seq<Component>, levels: Levels, st: Status, o: Objects)
    requires LevelsOf(cs, levels) && (st.desired == Sleeping || st.desired == Unset)
    requires AllReady(Observe(ns, cs, {}, o)) && AllCanSleep(ns, cs, o)
    ensures var r := Reconcile(ns, cs, levels, NO_FAULTS, st, o);
            r.requeue == Later && r.status.state == Sleeping && AllOff(ns, cs, r.objects)
  {
    AllReadyMeansPresent(ns, cs, {}, o);
    ScaleDownTurnsOff(ns, cs, 0, o);
    CompositeStep(ns, cs, levels, NO_FAULTS, st, o);
  }

  // ------------------------------------------------------------ waking up

  /** Every scale-up write is to a component of the chosen level. */
  lemma RaisedInCurrentLevel(
    ns: string, cs: seq<Component>, levels: Levels, faults: Faults, st: Status, o: Objects, n: string)
    requires LevelsOf(cs, levels) && n in Reconcile(ns, cs, levels, faults, st, o).raised
    ensures var k := CurrentLevel(levels, Observe(ns, cs, faults.unreadable, o));
            ValidSpec(cs) && 0 <= k && InLevel(levels, n, k)
  {
    var statuses := Observe(ns, cs, faults.unreadable, o);
    assert ValidSpec(cs);
    var chosen := Chosen(cs, levels, statuses);
    RaisedAreListed(ns, chosen, faults.scaling, 0, o);
    var j :| 0 <= j < |chosen| && chosen[j].name == n;
    var k := CurrentLevel(levels, statuses);
    LevelNamesExist(cs, levels, k);
    assert levels[k][j] in levels[k];
    ByNameAt(cs, levels[k][j]);
  }

  /** Dependency safety of one reconcile: a component is scaled up only on top of ready dependencies. */
  lemma RaisedDependenciesReady(
    ns: string, cs: seq<Component>, levels: Levels, faults: Faults, st: Status, o: Objects, n: string, d: string)
    requires LevelsOf(cs, levels) && n in Reconcile(ns, cs, levels, faults, st, o).raised
    requires UniqueNames(cs) && DependsTransitively(DepsOf(cs), n, d)
    ensures ReadyIn(Observe(ns, cs, faults.unreadable, o), d)
  {
    RaisedInCurrentLevel(ns, cs, levels, faults, st, o, n);
    var statuses := Observe(ns, cs, faults.unreadable, o);
    var k := CurrentLevel(levels, statuses);
    TransitiveDependenciesLieLower(DepsOf(cs), levels, n, k, d);
    var j: nat :| j < k && InLevel(levels, d, j);
    var i :| 0 <= i < |levels[j]| && levels[j][i] == d;
    assert LevelReady(levels[j], statuses);
  }

  /** A spec with a duplicate name, a missing dependency or a cycle never causes a scale-up write. */
  lemma InvalidSpecRaisesNothing(ns: string, cs: seq<Component>, levels: Levels, faults: Faults, st: Status, o: Objects)
    requires LevelsOf(cs, levels) && !ValidSpec(cs)
    ensures Reconcile(ns, cs, levels, faults, st, o).raised == []
    ensures (st.desired == Awake || st.state == Waking) && !AllReady(Observe(ns, cs, faults.unreadable, o)) ==>
              Reconcile(ns, cs, levels, faults, st, o) == Step(o, st, [], Failed)
  {
  }

  lemma ChosenIsPresent(ns: string, cs: seq<Component>, levels: Levels, statuses: seq<ComponentStatus>, o: Objects)
    requires ValidSpec(cs) && IsLayering(DepsOf(cs), levels) && Present(ns, cs, o)
    ensures Present(ns, Chosen(cs, levels, statuses), o)
    ensures forall c | c in Chosen(cs, levels, statuses) :: c in cs
  {
    var k := CurrentLevel(levels, statuses);
    if k >= 0 {
      LevelNamesExist(cs, levels, k);
      var chosen := Chosen(cs, levels, statuses);
      forall i | 0 <= i < |chosen|
        ensures chosen[i] in cs && KeyOf(ns, chosen[i]) in o
      {
        assert levels[k][i] in levels[k];
        ByNameAt(cs, levels[k][i]);
      }
    }
  }

  /** For a fixed snapshot a second scale-up changes nothing, even with another iteration order. */
  lemma ScaleUpTwice(ns: string, cs: seq<Component>, a: Levels, b: Levels, statuses: seq<ComponentStatus>, o: Objects)
    requires LevelsOf(cs, a) && LevelsOf(cs, b) && Present(ns, cs, o)
    ensures var once := ScaleUp(ns, cs, a, statuses, [], o).objects;
            ScaleUp(ns, cs, b, statuses, [], once).objects == once
  {
    if ValidSpec(cs) {
      ChosenIsPresent(ns, cs, a, statuses, o);
      ChosenIsUnique(cs, a, b, statuses);
      ScaleUpIdempotent(ns, Chosen(cs, a, statuses), Chosen(cs, b, statuses), o);
    }
  }

  lemma {:induction false} SameLeadingReady(a: Levels, b: Levels, statuses: seq<ComponentStatus>, i: nat)
    requires |a| == |b| && i <= |a| && forall k, c | 0 <= k < |a| :: c in a[k] <==> c in b[k]
    ensures LeadingReady(a, statuses, i) == LeadingReady(b, statuses, i)
    decreases |a| - i
  {
    if i < |a| {
      SameLevelReady(a[i], b[i], statuses);
      SameLeadingReady(a, b, statuses, i + 1);
    }
  }

  lemma SameLevelReady(a: seq<string>, b: seq<string>, statuses: seq<ComponentStatus>)
    requires forall c :: c in a <==> c in b
    ensures LevelReady(a, statuses) <==> LevelReady(b, statuses)
  {
    assert forall i | 0 <= i < |a| :: a[i] in b;
    assert forall i | 0 <= i < |b| :: b[i] in a;
  }

  lemma ChosenIff(cs: seq<Component>, levels: Levels, statuses: seq<ComponentStatus>, c: Component)
    requires ValidSpec(cs) && IsLayering(DepsOf(cs), levels)
    ensures var k := CurrentLevel(levels, statuses);
            c in Chosen(cs, levels, statuses) <==>
            k >= 0 && c.name in levels[k] && c.name in ByName(cs) && ByName(cs)[c.name] == c
  {
    var k := CurrentLevel(levels, statuses);
    if k >= 0 {
      LevelNamesExist(cs, levels, k);
      PickedIff(cs, levels[k], c);
    }
  }

  /** Which components are chosen does not depend on the iteration order. */
  lemma ChosenIsUnique(cs: seq<Component>, a: Levels, b: Levels, statuses: seq<ComponentStatus>)
    requires ValidSpec(cs) && IsLayering(DepsOf(cs), a) && IsLayering(DepsOf(cs), b)
    ensures CurrentLevel(a, statuses) == CurrentLevel(b, statuses)
    ensures forall c :: c in Chosen(cs, a, statuses) <==> c in Chosen(cs, b, statuses)
  {
    LayeringIsUnique(DepsOf(cs), a, b);
    SameLeadingReady(a, b, statuses, 0);
    forall c
      ensures c in Chosen(cs, a, statuses) <==> c in Chosen(cs, b, statuses)
    {
      ChosenIff(cs, a, statuses, c);
      ChosenIff(cs, b, statuses, c);
    }
  }

  lemma {:induction false} PickedIff(cs: seq<Component>, names: seq<string>, c: Component)
    requires UniqueNames(cs) && forall n | n in names :: n in ByName(cs)
    ensures c in Pick(cs, names) <==> c.name in names && c.name in ByName(cs) && ByName(cs)[c.name] == c
  {
    if names != [] {
      PickedIff(cs, names[1..], c);
      ByNameAt(cs, names[0]);
      assert names == [names[0]] + names[1..];
    }
  }
}
