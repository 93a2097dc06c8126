/**
 Going to sleep across several reconciles: what becomes of a scale-down that failed, and of a sleep request that
 comes during a wake-up.
 */
module Hibernation {
  import opened Types
  import opened Walks
  import opened Layering
  import opened Dependencies
  import opened Scaling
  import opened Reconciling
  import opened ReconcileLaws
  import opened Wakeup
  import opened Runs

  predicate WantsSleep(st: Status) {
    st.desired == Sleeping || st.desired == Unset
  }

  /** Asked to sleep, a reconcile scales down, goes on with a wake-up that is under way, or does nothing. */
  lemma SleepyObjects(ns: string, cs: seq<Component>, levels: Levels, faults: Faults, st: Status, o: Objects)
    requires LevelsOf(cs, levels) && WantsSleep(st)
    ensures var statuses := Observe(ns, cs, faults.unreadable, o);
            Reconcile(ns, cs, levels, faults, st, o).objects ==
            if AllReady(statuses) then ScaleDownAll(ns, cs, faults.scaling, 0, o).objects
            else if st.state == Waking then ScaleUp(ns, cs, levels, statuses, faults.scaling, o).objects
            else o
  {
  }

  // ------------------------------------------------------------ what a scale-down leaves

  lemma {:induction false} OffStays(
    ns: string, cs: seq<Component>, faults: seq<Fault>, i: nat, o: Objects, c: Component)
    requires i <= |cs|
    ensures OffIn(ns, c, o) ==> OffIn(ns, c, ScaleDownAll(ns, cs, faults, i, o).objects)
    ensures CanSleepIn(ns, c, o) ==> CanSleepIn(ns, c, ScaleDownAll(ns, cs, faults, i, o).objects)
    decreases |cs| - i
  {
    if i < |cs| {
      var first := ScaleDownOne(ns, cs[i], FaultAt(faults, i), o);
      if first.err.None? {
        OffStays(ns, cs, faults, i + 1, first.objects, c);
      }
    }
  }

  /** However a scale-down ends, if it wrote anything then some component is off. */
  lemma {:induction false} WrittenMeansOff(ns: string, cs: seq<Component>, faults: seq<Fault>, i: nat, o: Objects)
    requires i <= |cs| && ScaleDownAll(ns, cs, faults, i, o).objects != o
    ensures exists j | 0 <= j < |cs| :: OffIn(ns, cs[j], ScaleDownAll(ns, cs, faults, i, o).objects)
    decreases |cs| - i
  {
    var first := ScaleDownOne(ns, cs[i], FaultAt(faults, i), o);
    if first.err.None? {
      if first.objects == o {
        WrittenMeansOff(ns, cs, faults, i + 1, o);
      } else {
        OffStays(ns, cs, faults, i + 1, first.objects, cs[i]);
      }
    }
  }

  lemma OffMeansNotAllReady(ns: string, cs: seq<Component>, o: Objects, j: nat)
    requires j < |cs| && OffIn(ns, cs[j], o)
    ensures !AllReady(Observe(ns, cs, {}, o))
  {
    OffIsNeverReady(cs[j].kind, o[KeyOf(ns, cs[j])]);
    assert !Observe(ns, cs, {}, o)[j].ready;
  }

  // ------------------------------------------------------------ what a scale-up then does

  /** On, with an explicit count: a scale-up has nothing to do for this component. */
  predicate OnIn(ns: string, c: Component, o: Objects) {
    CanSleepIn(ns, c, o) && !OffIn(ns, c, o)
  }

  lemma OnStays(ns: string, cs: seq<Component>, faults: seq<Fault>, i: nat, o: Objects, c: Component)
    requires i <= |cs| && OnIn(ns, c, o)
    ensures OnIn(ns, c, ScaleUpAll(ns, cs, faults, i, o).objects)
  {
    ScaleUpIsConservative(ns, cs, faults, i, o);
  }

  lemma NothingToRaise(ns: string, cs: seq<Component>, faults: seq<Fault>, o: Objects)
    requires forall i | 0 <= i < |cs| :: OnIn(ns, cs[i], o)
    ensures ScaleUpAll(ns, cs, faults, 0, o).objects == o
  {
    ScaleUpIsConservative(ns, cs, faults, 0, o);
    var after := ScaleUpAll(ns, cs, faults, 0, o).objects;
    forall k | k in o
      ensures after[k] == o[k]
    {
      if NamesKey(ns, cs, 0, k) {
        var j :| 0 <= j < |cs| && KeyOf(ns, cs[j]) == k;
        assert OnIn(ns, cs[j], o);
      }
    }
  }

  lemma ScaleUpOfOn(
    ns: string, cs: seq<Component>, levels: Levels, statuses: seq<ComponentStatus>, faults: seq<Fault>, o: Objects)
    requires LevelsOf(cs, levels) && forall i | 0 <= i < |cs| :: OnIn(ns, cs[i], o)
    ensures ScaleUp(ns, cs, levels, statuses, faults, o).objects == o
  {
    if ValidSpec(cs) {
      var chosen := Chosen(cs, levels, statuses);
      forall i | 0 <= i < |chosen|
        ensures OnIn(ns, chosen[i], o)
      {
        ChosenIff(cs, levels, statuses, chosen[i]);
        ByNameAt(cs, chosen[i].name);
      }
      NothingToRaise(ns, chosen, faults, o);
    }
  }

  lemma ReadyIsOn(ns: string, cs: seq<Component>, o: Objects)
    requires AllReady(Observe(ns, cs, {}, o)) && AllCanSleep(ns, cs, o)
    ensures forall i | 0 <= i < |cs| :: OnIn(ns, cs[i], o)
  {
    forall i | 0 <= i < |cs|
      ensures OnIn(ns, cs[i], o)
    {
      assert Observe(ns, cs, {}, o)[i].ready;
    }
  }

  /** A scale-up over a list turns on each component of it that declares more than zero. */
  lemma {:induction false} ScaleUpTurnsOnOne(ns: string, cs: seq<Component>, i: nat, o: Objects, j: nat)
    requires i <= j < |cs| && Present(ns, cs, o) && CanWake(cs[j])
    ensures !OffIn(ns, cs[j], ScaleUpAll(ns, cs, [], i, o).objects)
    decreases |cs| - i
  {
    var first := ScaleUpOne(ns, cs[i], NoFault, o).objects;
    if i < j {
      ScaleUpTurnsOnOne(ns, cs, i + 1, first, j);
    } else {
      assert !NeedsScaleUp(cs[j].kind, first[KeyOf(ns, cs[j])].scale);
      ScaleUpIsConservative(ns, cs, [], i + 1, first);
    }
  }

  // ------------------------------------------------------------ starting from the bottom

  predicate IsRoot(c: Component) {
    c.dependsOn == []
  }

  lemma RootsAreLevelZero(cs: seq<Component>, levels: Levels, i: nat)
    requires ValidSpec(cs) && IsLayering(DepsOf(cs), levels) && i < |cs|
    ensures InLevel(levels, cs[i].name, 0) <==> IsRoot(cs[i])
  {
    var g, c := DepsOf(cs), cs[i].name;
    NameOf(cs, i);
    DepthIsStage(g, c, 0);
    assert HasDepth(g, c, 0) <==> g[c] == [] by {
      if g[c] != [] {
        assert g[c][0] in g[c];
      }
    }
    assert HasDepth(g, c, 0) ==> 0 < |levels|;
  }

  /** With everything off the scale-up starts at the bottom. */
  lemma AllOffStartsAtBottom(ns: string, cs: seq<Component>, levels: Levels, o: Objects)
    requires ValidSpec(cs) && IsLayering(DepsOf(cs), levels) && cs != [] && AllOff(ns, cs, o)
    ensures CurrentLevel(levels, Observe(ns, cs, {}, o)) == 0
  {
    var r := Round(o, Status(Unset, Unset, []), levels);
    var k := LevelOfComponent(cs, levels, 0);
    if LevelReady(levels[0], Snapshot(ns, cs, r)) {
      var n := levels[0][0];
      assert n in levels[0];
      LevelNamesExist(cs, levels, 0);
      ByNameAt(cs, n);
      var i :| 0 <= i < |cs| && cs[i].name == n;
      ReadyLevelAt(ns, cs, r, 0, i);
    }
  }

  lemma NameOf(cs: seq<Component>, i: nat)
    requires UniqueNames(cs) && i < |cs|
    ensures cs[i].name in ByName(cs) && ByName(cs)[cs[i].name] == cs[i]
  {
  }

  lemma ChosenAtBottom(cs: seq<Component>, levels: Levels, statuses: seq<ComponentStatus>, i: nat)
    requires ValidSpec(cs) && IsLayering(DepsOf(cs), levels) && i < |cs| && CurrentLevel(levels, statuses) == 0
    ensures cs[i] in Chosen(cs, levels, statuses) <==> InLevel(levels, cs[i].name, 0)
  {
    var c, k := cs[i], CurrentLevel(levels, statuses);
    NameOf(cs, i);
    ChosenIff(cs, levels, statuses, c);
    assert c in Chosen(cs, levels, statuses) <==> k >= 0 && c.name in levels[k];
  }

  lemma ChosenAreRoots(ns: string, cs: seq<Component>, levels: Levels, o: Objects, i: nat)
    requires ValidSpec(cs) && IsLayering(DepsOf(cs), levels) && i < |cs| && AllOff(ns, cs, o)
    ensures cs[i] in Chosen(cs, levels, Observe(ns, cs, {}, o)) <==> IsRoot(cs[i])
  {
    var statuses := Observe(ns, cs, {}, o);
    assert CurrentLevel(levels, statuses) == 0 by {
      AllOffStartsAtBottom(ns, cs, levels, o);
    }
    assert InLevel(levels, cs[i].name, 0) <==> IsRoot(cs[i]) by {
      RootsAreLevelZero(cs, levels, i);
    }
    ChosenAtBottom(cs, levels, statuses, i);
  }

  predicate RootsDeclareZero(cs: seq<Component>) {
    forall i | 0 <= i < |cs| && IsRoot(cs[i]) :: !CanWake(cs[i])
  }

  lemma AllOffIsPresent(ns: string, cs: seq<Component>, o: Objects)
    requires AllOff(ns, cs, o)
    ensures Present(ns, cs, o)
  {
    forall i | 0 <= i < |cs|
      ensures KeyOf(ns, cs[i]) in o
    {
      assert OffIn(ns, cs[i], o);
    }
  }

  lemma RootTurnsOn(ns: string, cs: seq<Component>, chosen: seq<Component>, o: Objects, i: nat)
    requires i < |cs| && cs[i] in chosen && CanWake(cs[i]) && Present(ns, chosen, o)
    ensures !AllOff(ns, cs, ScaleUpAll(ns, chosen, [], 0, o).objects)
  {
    var j :| 0 <= j < |chosen| && chosen[j] == cs[i];
    ScaleUpTurnsOnOne(ns, chosen, 0, o, j);
    assert !OffIn(ns, cs[i], ScaleUpAll(ns, chosen, [], 0, o).objects);
  }

  lemma ZeroesStayOff(ns: string, cs: seq<Component>, chosen: seq<Component>, o: Objects)
    requires AllOff(ns, cs, o) && forall j | 0 <= j < |chosen| :: !CanWake(chosen[j])
    ensures AllOff(ns, cs, ScaleUpAll(ns, chosen, [], 0, o).objects)
  {
    forall i | 0 <= i < |cs|
      ensures OffIn(ns, cs[i], ScaleUpAll(ns, chosen, [], 0, o).objects)
    {
      ScaleUpKeepsZero(ns, chosen, 0, o, cs[i]);
    }
  }

  /** A scale-up of a service that is off keeps it off exactly when all components without dependencies declare zero. */
  lemma ScaleUpOfAllOffIff(ns: string, cs: seq<Component>, levels: Levels, o: Objects)
    requires ValidSpec(cs) && IsLayering(DepsOf(cs), levels) && AllOff(ns, cs, o)
    ensures AllOff(ns, cs, ScaleUp(ns, cs, levels, Observe(ns, cs, {}, o), [], o).objects) <==> RootsDeclareZero(cs)
  {
    var chosen := Chosen(cs, levels, Observe(ns, cs, {}, o));
    AllOffIsPresent(ns, cs, o);
    ChosenIsPresent(ns, cs, levels, Observe(ns, cs, {}, o), o);
    if i :| 0 <= i < |cs| && IsRoot(cs[i]) && CanWake(cs[i]) {
      ChosenAreRoots(ns, cs, levels, o, i);
      RootTurnsOn(ns, cs, chosen, o, i);
    } else {
      forall j | 0 <= j < |chosen|
        ensures !CanWake(chosen[j])
      {
        assert chosen[j] in cs;
        var i :| 0 <= i < |cs| && cs[i] == chosen[j];
        ChosenAreRoots(ns, cs, levels, o, i);
      }
      ZeroesStayOff(ns, cs, chosen, o);
    }
  }

  // ------------------------------------------------------------ a scale-down that failed

  /** A failed reconcile that was to scale down has written nothing, or left what a scale-down leaves. */
  lemma HalfObjects(ns: string, cs: seq<Component>, levels: Levels, faults: Faults, st: Status, o: Objects)
    requires LevelsOf(cs, levels) && WantsSleep(st)
    requires AllReady(Observe(ns, cs, {}, o)) && AllCanSleep(ns, cs, o)
    ensures var half := Reconcile(ns, cs, levels, faults, st, o).objects;
            && AllCanSleep(ns, cs, half)
            && (half != o ==> exists j | 0 <= j < |cs| :: OffIn(ns, cs[j], half))
  {
    var statuses := Observe(ns, cs, faults.unreadable, o);
    SleepyObjects(ns, cs, levels, faults, st, o);
    if AllReady(statuses) {
      forall i | 0 <= i < |cs|
        ensures CanSleepIn(ns, cs[i], ScaleDownAll(ns, cs, faults.scaling, 0, o).objects)
      {
        OffStays(ns, cs, faults.scaling, 0, o, cs[i]);
      }
      if ScaleDownAll(ns, cs, faults.scaling, 0, o).objects != o {
        WrittenMeansOff(ns, cs, faults.scaling, 0, o);
      }
    } else {
      ReadyIsOn(ns, cs, o);
      ScaleUpOfOn(ns, cs, levels, statuses, faults.scaling, o);
    }
  }

  /** What the stored state makes of objects that are partly off, while sleep is desired. */
  lemma AfterHalf(ns: string, cs: seq<Component>, levels: Levels, st: Status, half: Objects)
    requires LevelsOf(cs, levels) && WantsSleep(st) && AllCanSleep(ns, cs, half)
    requires exists j | 0 <= j < |cs| :: OffIn(ns, cs[j], half)
    ensures AllOff(ns, cs, Reconcile(ns, cs, levels, NO_FAULTS, st, half).objects) <==>
            AllOff(ns, cs, half) && (st.state == Waking && ValidSpec(cs) ==> RootsDeclareZero(cs))
  {
    var j :| 0 <= j < |cs| && OffIn(ns, cs[j], half);
    OffMeansNotAllReady(ns, cs, half, j);
    SleepyObjects(ns, cs, levels, NO_FAULTS, st, half);
    if st.state == Waking && ValidSpec(cs) {
      if AllOff(ns, cs, half) {
        ScaleUpOfAllOffIff(ns, cs, levels, half);
      } else {
        var i :| 0 <= i < |cs| && !OffIn(ns, cs[i], half);
        OnStays(ns, Chosen(cs, levels, Observe(ns, cs, {}, half)), [], 0, half, cs[i]);
      }
    }
  }

  /**
   A scale-down that failed is completed by the next faultless reconcile exactly when it had written nothing, or
   everything; but everything does not count while Waking is stored, because the next reconcile then goes on with
   the wake-up and turns on whatever has no dependencies and declares more than zero.
   */
  lemma ScaleDownResumedIff(
    ns: string, cs: seq<Component>, levels: Levels, again: Levels, faults: Faults, st: Status, o: Objects)
    requires LevelsOf(cs, levels) && LevelsOf(cs, again) && WantsSleep(st)
    requires AllReady(Observe(ns, cs, {}, o)) && AllCanSleep(ns, cs, o)
    requires Reconcile(ns, cs, levels, faults, st, o).requeue == Failed
    ensures var half := Reconcile(ns, cs, levels, faults, st, o).objects;
            AllOff(ns, cs, Reconcile(ns, cs, again, NO_FAULTS, st, half).objects) <==>
            || half == o
            || (AllOff(ns, cs, half) && (st.state == Waking && ValidSpec(cs) ==> RootsDeclareZero(cs)))
  {
    var half := Reconcile(ns, cs, levels, faults, st, o).objects;
    HalfObjects(ns, cs, levels, faults, st, o);
    if half == o {
      SleepHonouredWhenReady(ns, cs, again, st, o);
    } else {
      AfterHalf(ns, cs, again, st, half);
    }
  }

  lemma RaisesNothingIff(ns: string, chosen: seq<Component>, o: Objects)
    requires Present(ns, chosen, o)
    ensures ScaleUpAll(ns, chosen, [], 0, o).objects == o <==> forall c | c in chosen :: Settled(ns, c, o)
  {
    ScaleUpSettles(ns, chosen, 0, o);
    if forall c | c in chosen :: Settled(ns, c, o) {
      ScaleUpOfSettled(ns, chosen, 0, o);
    }
  }

  lemma UnrequestedObjects(ns: string, cs: seq<Component>, levels: Levels, st: Status, o: Objects)
    requires LevelsOf(cs, levels) && st.desired != Awake && !AllReady(Observe(ns, cs, {}, o))
    ensures Reconcile(ns, cs, levels, NO_FAULTS, st, o).objects ==
            if st.state == Waking then ScaleUp(ns, cs, levels, Observe(ns, cs, {}, o), [], o).objects else o
  {
  }

  /** The level that a scale-up would raise has nothing to be raised. */
  ghost predicate NothingDue(ns: string, cs: seq<Component>, levels: Levels, o: Objects)
    requires ValidSpec(cs) && IsLayering(DepsOf(cs), levels)
  {
    forall c | c in Chosen(cs, levels, Observe(ns, cs, {}, o)) :: Settled(ns, c, o)
  }

  /**
   While no wake-up is requested and some component is off, a faultless reconcile leaves every object alone exactly
   when Waking is not stored, the spec is invalid, or nothing is due.
   */
  lemma FrozenIff(ns: string, cs: seq<Component>, levels: Levels, st: Status, o: Objects, j: nat)
    requires LevelsOf(cs, levels) && Present(ns, cs, o) && st.desired != Awake
    requires j < |cs| && OffIn(ns, cs[j], o)
    ensures Reconcile(ns, cs, levels, NO_FAULTS, st, o).objects == o <==>
            (st.state == Waking && ValidSpec(cs) ==> NothingDue(ns, cs, levels, o))
  {
    assert !AllReady(Observe(ns, cs, {}, o)) by {
      OffMeansNotAllReady(ns, cs, o, j);
    }
    UnrequestedObjects(ns, cs, levels, st, o);
    if ValidSpec(cs) {
      ChosenIsPresent(ns, cs, levels, Observe(ns, cs, {}, o), o);
      RaisesNothingIff(ns, Chosen(cs, levels, Observe(ns, cs, {}, o)), o);
    }
  }

  // ------------------------------------------------------------ a sleep request during a wake-up

  ghost predicate SleepRound(ns: string, cs: seq<Component>, r: Round) {
    LevelsOf(cs, r.levels) && Present(ns, cs, r.objects) && WantsSleep(r.status)
  }

  /** Faultless reconciles with a sleep request, each followed by the environment settling. */
  ghost predicate SleepRun(ns: string, cs: seq<Component>, rs: seq<Round>) {
    && (forall i | 0 <= i < |rs| :: SleepRound(ns, cs, rs[i]))
    && (forall i, j | 0 <= i < j < |rs| && j == i + 1 :: Follows(ns, cs, rs[i], rs[j]))
  }

  ghost predicate AsleepAt(ns: string, cs: seq<Component>, r: Round) {
    && LevelsOf(cs, r.levels)
    && StepOf(ns, cs, r).status.state == Sleeping && StepOf(ns, cs, r).requeue == Later
    && AllOff(ns, cs, StepOf(ns, cs, r).objects)
  }

  lemma SleepRunTail(ns: string, cs: seq<Component>, rs: seq<Round>)
    requires SleepRun(ns, cs, rs) && |rs| > 1
    ensures SleepRun(ns, cs, rs[1..]) && Follows(ns, cs, rs[0], rs[1])
  {
    var tail := rs[1..];
    forall i | 0 <= i < |tail|
      ensures SleepRound(ns, cs, tail[i])
    {
      assert tail[i] == rs[i + 1];
    }
    forall i, j | 0 <= i < j < |tail| && j == i + 1
      ensures Follows(ns, cs, tail[i], tail[j])
    {
      assert tail[i] == rs[i + 1] && tail[j] == rs[j + 1];
    }
  }

  lemma AsleepStays(ns: string, cs: seq<Component>, r: Round, next: Round)
    requires SleepRound(ns, cs, r) && SleepRound(ns, cs, next) && Follows(ns, cs, r, next) && AsleepAt(ns, cs, r)
    ensures AsleepAt(ns, cs, next)
  {
    assert AllOff(ns, cs, next.objects) by {
      forall i | 0 <= i < |cs|
        ensures OffIn(ns, cs[i], next.objects)
      {
        assert OffIn(ns, cs[i], StepOf(ns, cs, r).objects);
      }
    }
    if cs != [] {
      OffMeansNotAllReady(ns, cs, next.objects, 0);
    }
    SleepyObjects(ns, cs, next.levels, NO_FAULTS, next.status, next.objects);
    CompositeStep(ns, cs, next.levels, NO_FAULTS, next.status, next.objects);
  }

  lemma {:induction false} AsleepForever(ns: string, cs: seq<Component>, rs: seq<Round>, i: nat)
    requires SleepRun(ns, cs, rs) && i < |rs| && AsleepAt(ns, cs, rs[0])
    ensures AsleepAt(ns, cs, rs[i])
  {
    if i > 0 {
      AsleepForever(ns, cs, rs, i - 1);
      AsleepStays(ns, cs, rs[i - 1], rs[i]);
    }
  }

  lemma {:induction false} ScaleUpKeepsCanSleep(ns: string, cs: seq<Component>, i: nat, o: Objects, c: Component)
    requires i <= |cs| && CanSleepIn(ns, c, o) && forall j | 0 <= j < |cs| :: DeclaredReplicas(cs[j]) >= 0
    ensures CanSleepIn(ns, c, ScaleUpAll(ns, cs, [], i, o).objects)
    decreases |cs| - i
  {
    if i < |cs| {
      ScaleUpKeepsCanSleep(ns, cs, i + 1, ScaleUpOne(ns, cs[i], NoFault, o).objects, c);
    }
  }

  /** A spec and a cluster that the wake-up can finish and the scale-down can turn off. */
  ghost predicate Workable(ns: string, cs: seq<Component>, o: Objects) {
    && AllWakeable(ns, cs, o) && AllCanSleep(ns, cs, o)
    && forall i | 0 <= i < |cs| :: DeclaredReplicas(cs[i]) >= 0
  }

  lemma WorkableStays(ns: string, cs: seq<Component>, r: Round, next: Round)
    requires ValidSpec(cs) && SleepRound(ns, cs, r) && RaiseRound(ns, cs, r) && !AllReady(Snapshot(ns, cs, r))
    requires Follows(ns, cs, r, next) && Workable(ns, cs, r.objects)
    ensures Workable(ns, cs, next.objects)
  {
    var chosen, step := Chosen(cs, r.levels, Snapshot(ns, cs, r)), StepOf(ns, cs, r).objects;
    RoundScales(ns, cs, r);
    ChosenIsPresent(ns, cs, r.levels, Snapshot(ns, cs, r), r.objects);
    ScaleUpIsConservative(ns, chosen, [], 0, r.objects);
    forall i | 0 <= i < |cs|
      ensures WakeableIn(ns, cs[i], next.objects) && CanSleepIn(ns, cs[i], next.objects)
    {
      assert WakeableIn(ns, cs[i], r.objects) && CanSleepIn(ns, cs[i], r.objects);
      forall j | 0 <= j < |chosen|
        ensures DeclaredReplicas(chosen[j]) >= 0
      {
        assert chosen[j] in cs;
      }
      ScaleUpKeepsCanSleep(ns, chosen, 0, r.objects, cs[i]);
    }
  }

  lemma AsleepWhenReady(ns: string, cs: seq<Component>, r: Round)
    requires SleepRound(ns, cs, r) && AllReady(Snapshot(ns, cs, r)) && AllCanSleep(ns, cs, r.objects)
    ensures AsleepAt(ns, cs, r)
  {
    SleepHonouredWhenReady(ns, cs, r.levels, r.status, r.objects);
  }

  lemma {:induction false} SleepsFrom(ns: string, cs: seq<Component>, rs: seq<Round>) returns (k: nat)
    requires ValidSpec(cs) && SleepRun(ns, cs, rs) && |rs| > 0 && rs[0].status.state == Waking
    requires Workable(ns, cs, rs[0].objects) && |rs| > |rs[0].levels| - Prefix(ns, cs, rs[0])
    ensures k <= |rs[0].levels| - Prefix(ns, cs, rs[0])
    ensures forall i | 0 <= i < k :: WakingAt(ns, cs, rs[i])
    ensures k < |rs| && AsleepAt(ns, cs, rs[k])
    decreases |rs|
  {
    assert SleepRound(ns, cs, rs[0]);
    if AllReady(Snapshot(ns, cs, rs[0])) {
      AsleepWhenReady(ns, cs, rs[0]);
      k := 0;
    } else {
      FullPrefixIffAllReady(ns, cs, rs[0]);
      RoundScales(ns, cs, rs[0]);
      SleepRunTail(ns, cs, rs);
      assert SleepRound(ns, cs, rs[1]);
      RoundProgress(ns, cs, rs[0], rs[1]);
      WorkableStays(ns, cs, rs[0], rs[1]);
      var j := SleepsFrom(ns, cs, rs[1..]);
      k := j + 1;
      forall i | 0 <= i < k
        ensures WakingAt(ns, cs, rs[i])
      {
        assert i > 0 ==> rs[i] == rs[1..][i - 1];
      }
    }
  }

  /**
   A sleep request that comes while Waking is stored: on a valid spec with L levels the wake-up goes on for at most L
   reconciles, each Waking with a short requeue; from then on the service is Sleeping with every component off.
   */
  lemma SleepsAfterWaking(ns: string, cs: seq<Component>, rs: seq<Round>) returns (k: nat)
    requires ValidSpec(cs) && SleepRun(ns, cs, rs) && |rs| > 0 && rs[0].status.state == Waking
    requires Workable(ns, cs, rs[0].objects) && |rs| > |rs[0].levels|
    ensures k <= |rs[0].levels|
    ensures forall i | 0 <= i < k :: WakingAt(ns, cs, rs[i])
    ensures forall i | k <= i < |rs| :: AsleepAt(ns, cs, rs[i])
  {
    k := SleepsFrom(ns, cs, rs);
    var tail := rs[k..];
    assert SleepRun(ns, cs, tail) by {
      forall i | 0 <= i < |tail|
        ensures SleepRound(ns, cs, tail[i])
      {
        assert tail[i] == rs[k + i];
      }
      forall i, j | 0 <= i < j < |tail| && j == i + 1
        ensures Follows(ns, cs, tail[i], tail[j])
      {
        assert tail[i] == rs[k + i] && tail[j] == rs[k + j];
      }
    }
    forall i | k <= i < |rs|
      ensures AsleepAt(ns, cs, rs[i])
    {
      AsleepForever(ns, cs, tail, i - k);
      assert tail[i - k] == rs[i];
    }
  }

  // ------------------------------------------------------------ concrete cases

  function Plain(name: string): Component {
    Component(name, Deployment, ResourceRef(name, ""), None, [])
  }

  function RunningPods(n: int): Resource {
    Resource(Scale(Some(n), map[]), Health(n, None))
  }

  const A := Plain("a")
  const B := Plain("b")

  ghost predicate BothRunning(o: Objects) {
    o == map[KeyOf("ns", A) := RunningPods(1), KeyOf("ns", B) := RunningPods(1)]
  }

  lemma TwoKeys()
    ensures KeyOf("ns", A) != KeyOf("ns", B) && A.name != B.name
  {
    assert KeyOf("ns", A).name[0] != KeyOf("ns", B).name[0];
  }

  lemma BothReady(o: Objects)
    requires BothRunning(o)
    ensures AllReady(Observe("ns", [A, B], {}, o)) && AllCanSleep("ns", [A, B], o)
  {
    TwoKeys();
  }

  lemma TwoAreValid()
    ensures ValidSpec([A, B])
  {
    TwoKeys();
    var g := DepsOf([A, B]);
    forall n | n in g
      ensures g[n] == []
    {
      ByNameAt([A, B], n);
    }
    forall w
      ensures !IsCycle(g, w)
    {
      if |w| >= 2 && w[0] in g {
        assert w[1] !in g[w[0]];
      }
    }
  }

  lemma HalfwayObjects(o: Objects)
    requires BothRunning(o)
    ensures var r := ScaleDownAll("ns", [A, B], [NoFault, GetFails], 0, o);
            r.err.Some? && OffIn("ns", A, r.objects) && !OffIn("ns", B, r.objects)
  {
    TwoKeys();
    var o1 := ScaleDownOne("ns", A, NoFault, o).objects;
    assert ScaleDownAll("ns", [A, B], [NoFault, GetFails], 1, o1) == Outcome(o1, [], Some(NotRead(KeyOf("ns", B))));
  }

  /** Two awake deployments; the scale-down of the second one cannot be read. */
  lemma HalfwayScaleDown(levels: Levels, st: Status, o: Objects)
    requires LevelsOf([A, B], levels) && st == Status(Sleeping, Awake, []) && BothRunning(o)
    ensures var r := Reconcile("ns", [A, B], levels, Faults({}, [NoFault, GetFails], false), st, o);
            && r.requeue == Failed && r.status == st
            && OffIn("ns", A, r.objects) && !OffIn("ns", B, r.objects)
            && Resting("ns", [A, B], World(r.objects, r.status, []), 0)
  {
    HalfwayObjects(o);
    BothReady(o);
  }

  /** Awake and asked to sleep, the second deployment not ready: Sleeping is stored with everything on. */
  lemma SleepingWithEverythingOn(levels: Levels, st: Status, o: Objects)
    requires LevelsOf([A, B], levels) && st == Status(Sleeping, Awake, [])
    requires o == map[KeyOf("ns", A) := RunningPods(1),
                      KeyOf("ns", B) := Resource(Scale(Some(1), map[]), Health(0, None))]
    ensures var r := Reconcile("ns", [A, B], levels, NO_FAULTS, st, o);
            && r.requeue == Later && r.status.state == Sleeping && r.objects == o
            && !OffIn("ns", A, r.objects) && !OffIn("ns", B, r.objects)
  {
    TwoKeys();
    assert !Observe("ns", [A, B], {}, o)[1].ready;
    CompositeStep("ns", [A, B], levels, NO_FAULTS, st, o);
    SleepyObjects("ns", [A, B], levels, NO_FAULTS, st, o);
  }

  /**
   Waking is stored and sleep desired, both deployments are ready: a scale-down whose status write is refused turns
   everything off, and the next faultless reconcile goes on waking the service up.
   */
  lemma RefusedStatusUndoesScaleDown(levels: Levels, again: Levels, st: Status, o: Objects)
    requires LevelsOf([A, B], levels) && LevelsOf([A, B], again)
    requires st == Status(Sleeping, Waking, []) && BothRunning(o)
    ensures var r := Reconcile("ns", [A, B], levels, Faults({}, [], true), st, o);
            var next := Reconcile("ns", [A, B], again, NO_FAULTS, r.status, r.objects);
            && r.requeue == Failed && AllOff("ns", [A, B], r.objects)
            && next.status.state == Waking && !AllOff("ns", [A, B], next.objects)
  {
    var cs := [A, B];
    BothReady(o);
    TwoAreValid();
    var r := Reconcile("ns", cs, levels, Faults({}, [], true), st, o);
    AllReadyMeansPresent("ns", cs, {}, o);
    ScaleDownTurnsOff("ns", cs, 0, o);
    SleepyObjects("ns", cs, levels, Faults({}, [], true), st, o);
    assert OffIn("ns", cs[0], r.objects);
    AfterHalf("ns", cs, again, st, r.objects) by {
      HalfObjects("ns", cs, levels, Faults({}, [], true), st, o);
    }
    assert IsRoot(cs[0]) && CanWake(cs[0]);
    OffMeansNotAllReady("ns", cs, r.objects, 0);
    ScaleUpSucceedsHere(again, r.objects);
    CompositeStep("ns", cs, again, NO_FAULTS, st, r.objects);
  }

  lemma ScaleUpSucceedsHere(levels: Levels, o: Objects)
    requires LevelsOf([A, B], levels) && Present("ns", [A, B], o)
    ensures ScaleUp("ns", [A, B], levels, Observe("ns", [A, B], {}, o), [], o).err.None?
  {
    TwoAreValid();
    ChosenIsPresent("ns", [A, B], levels, Observe("ns", [A, B], {}, o), o);
    ScaleUpSucceeds("ns", Chosen([A, B], levels, Observe("ns", [A, B], {}, o)), 0, o);
  }
}
