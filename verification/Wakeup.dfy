/**
 The wake-up as a convergence argument: reconciles alternate with an environment that makes whatever is
 switched on ready, and the number of leading ready levels grows until everything is awake.
 */
module Wakeup {
  import opened Types
  import opened Walks
  import opened Layering
  import opened Dependencies
  import opened Scaling
  import opened Reconciling
  import opened ReconcileLaws

  /** What a reconcile of the wake-up starts from. */
  datatype Round = Round(objects: Objects, status: Status, levels: Levels)

  ghost function StepOf(ns: string, cs: seq<Component>, r: Round): Step
    requires LevelsOf(cs, r.levels)
  {
    Reconcile(ns, cs, r.levels, NO_FAULTS, r.status, r.objects)
  }

  function Snapshot(ns: string, cs: seq<Component>, r: Round): seq<ComponentStatus> {
    Observe(ns, cs, {}, r.objects)
  }

  /** The environment writes no scale and makes every component that is switched on ready. */
  ghost predicate Settles(ns: string, cs: seq<Component>, before: Objects, after: Objects) {
    && SameScales(before, after)
    && forall i | 0 <= i < |cs| :: SettledAt(ns, cs[i], after)
  }

  ghost predicate SettledAt(ns: string, c: Component, o: Objects) {
    KeyOf(ns, c) in o && !IsOff(c.kind, o[KeyOf(ns, c)].scale) ==> IsReady(c.kind, o[KeyOf(ns, c)])
  }

  /** A round that scales up while something is not ready: a wake-up is requested, or under way. */
  ghost predicate RaiseRound(ns: string, cs: seq<Component>, r: Round) {
    && LevelsOf(cs, r.levels) && Present(ns, cs, r.objects)
    && (r.status.desired == Awake || r.status.state == Waking)
  }

  ghost predicate WakeRound(ns: string, cs: seq<Component>, r: Round) {
    RaiseRound(ns, cs, r) && r.status.desired == Awake
  }

  ghost predicate Follows(ns: string, cs: seq<Component>, r: Round, next: Round)
    requires LevelsOf(cs, r.levels)
  {
    next.status == StepOf(ns, cs, r).status && Settles(ns, cs, StepOf(ns, cs, r).objects, next.objects)
  }

  /** Faultless reconciles with a wake request, each followed by the environment settling. */
  ghost predicate WakeRun(ns: string, cs: seq<Component>, rs: seq<Round>) {
    && (forall i | 0 <= i < |rs| :: WakeRound(ns, cs, rs[i]))
    && (forall i, j | 0 <= i < j < |rs| && j == i + 1 :: Follows(ns, cs, rs[i], rs[j]))
  }

  function Prefix(ns: string, cs: seq<Component>, r: Round): nat {
    LeadingReady(r.levels, Snapshot(ns, cs, r), 0)
  }

  // ------------------------------------------------------------ the measure

  lemma ReadyLevelAt(ns: string, cs: seq<Component>, r: Round, k: nat, i: nat)
    requires ValidSpec(cs) && IsLayering(DepsOf(cs), r.levels) && i < |cs| && k < |r.levels|
    requires InLevel(r.levels, cs[i].name, k) && LevelReady(r.levels[k], Snapshot(ns, cs, r))
    ensures ObservedReady(ns, cs[i], i, {}, r.objects)
  {
    var j :| 0 <= j < |r.levels[k]| && r.levels[k][j] == cs[i].name;
    ObservedByName(ns, cs, {}, r.objects, i);
  }

  lemma LevelReadyIf(ns: string, cs: seq<Component>, r: Round, k: nat)
    requires ValidSpec(cs) && IsLayering(DepsOf(cs), r.levels) && k < |r.levels|
    requires forall i | 0 <= i < |cs| && cs[i].name in r.levels[k] :: ObservedReady(ns, cs[i], i, {}, r.objects)
    ensures LevelReady(r.levels[k], Snapshot(ns, cs, r))
  {
    LevelNamesExist(cs, r.levels, k);
    forall j | 0 <= j < |r.levels[k]|
      ensures ReadyIn(Snapshot(ns, cs, r), r.levels[k][j])
    {
      assert r.levels[k][j] in r.levels[k];
      ByNameAt(cs, r.levels[k][j]);
      var i :| 0 <= i < |cs| && cs[i].name == r.levels[k][j];
      ObservedByName(ns, cs, {}, r.objects, i);
    }
  }

  lemma LevelOfComponent(cs: seq<Component>, levels: Levels, i: nat) returns (k: nat)
    requires ValidSpec(cs) && IsLayering(DepsOf(cs), levels) && i < |cs|
    ensures InLevel(levels, cs[i].name, k)
  {
    assert cs[i].name in ByName(cs);
    k := OneLevelEach(DepsOf(cs), levels, cs[i].name);
  }

  /** The measure is full exactly when the snapshot is ready throughout. */
  lemma FullPrefixIffAllReady(ns: string, cs: seq<Component>, r: Round)
    requires ValidSpec(cs) && RaiseRound(ns, cs, r)
    ensures Prefix(ns, cs, r) == |r.levels| <==> AllReady(Snapshot(ns, cs, r))
  {
    var n := Prefix(ns, cs, r);
    if n == |r.levels| {
      forall i | 0 <= i < |cs|
        ensures Snapshot(ns, cs, r)[i].ready
      {
        var k := LevelOfComponent(cs, r.levels, i);
        ReadyLevelAt(ns, cs, r, k, i);
      }
    } else if AllReady(Snapshot(ns, cs, r)) {
      forall i | 0 <= i < |cs|
        ensures ObservedReady(ns, cs[i], i, {}, r.objects)
      {
        assert Snapshot(ns, cs, r)[i].ready;
      }
      LevelReadyIf(ns, cs, r, n);
    }
  }

  /** Every component of the first `m` levels is switched on. */
  ghost predicate OnBelow(ns: string, cs: seq<Component>, levels: Levels, m: nat, o: Objects) {
    forall i, k | 0 <= i < |cs| && 0 <= k < m && InLevel(levels, cs[i].name, k) :: !OffIn(ns, cs[i], o)
  }

  lemma PrefixIsOn(ns: string, cs: seq<Component>, r: Round)
    requires ValidSpec(cs) && RaiseRound(ns, cs, r)
    ensures OnBelow(ns, cs, r.levels, Prefix(ns, cs, r), r.objects)
  {
    forall i, k | 0 <= i < |cs| && 0 <= k < Prefix(ns, cs, r) && InLevel(r.levels, cs[i].name, k)
      ensures !OffIn(ns, cs[i], r.objects)
    {
      ReadyLevelAt(ns, cs, r, k, i);
    }
  }

  lemma ChosenHas(cs: seq<Component>, levels: Levels, statuses: seq<ComponentStatus>, i: nat)
    requires ValidSpec(cs) && IsLayering(DepsOf(cs), levels) && i < |cs|
    requires CurrentLevel(levels, statuses) >= 0 && cs[i].name in levels[CurrentLevel(levels, statuses)]
    ensures cs[i] in Chosen(cs, levels, statuses)
  {
    var k := CurrentLevel(levels, statuses);
    LevelNamesExist(cs, levels, k);
    assert ByName(cs)[cs[i].name] == cs[i];
    PickedIff(cs, levels[k], cs[i]);
  }

  /** A reconcile that finds something unready scales up the first unready level. */
  lemma RoundScales(ns: string, cs: seq<Component>, r: Round)
    requires ValidSpec(cs) && RaiseRound(ns, cs, r) && !AllReady(Snapshot(ns, cs, r))
    ensures var step := StepOf(ns, cs, r);
            && step.status.state == Waking && step.requeue == Soon && step.status.desired == r.status.desired
            && step.objects == ScaleUpAll(ns, Chosen(cs, r.levels, Snapshot(ns, cs, r)), [], 0, r.objects).objects
            && CurrentLevel(r.levels, Snapshot(ns, cs, r)) == Prefix(ns, cs, r) < |r.levels|
  {
    var statuses := Snapshot(ns, cs, r);
    FullPrefixIffAllReady(ns, cs, r);
    ChosenIsPresent(ns, cs, r.levels, statuses, r.objects);
    ScaleUpSettles(ns, Chosen(cs, r.levels, statuses), 0, r.objects);
    CompositeStep(ns, cs, r.levels, NO_FAULTS, r.status, r.objects);
  }

  lemma ChosenWakeable(ns: string, cs: seq<Component>, levels: Levels, statuses: seq<ComponentStatus>, o: Objects)
    requires ValidSpec(cs) && IsLayering(DepsOf(cs), levels) && Present(ns, cs, o) && AllWakeable(ns, cs, o)
    ensures AllWakeable(ns, Chosen(cs, levels, statuses), o) && Present(ns, Chosen(cs, levels, statuses), o)
  {
    ChosenIsPresent(ns, cs, levels, statuses, o);
    var chosen := Chosen(cs, levels, statuses);
    forall i | 0 <= i < |chosen|
      ensures WakeableIn(ns, chosen[i], o)
    {
      assert chosen[i] in cs;
    }
  }

  lemma RoundTurnsOn(ns: string, cs: seq<Component>, r: Round)
    requires ValidSpec(cs) && RaiseRound(ns, cs, r) && AllWakeable(ns, cs, r.objects)
    requires !AllReady(Snapshot(ns, cs, r))
    ensures OnBelow(ns, cs, r.levels, Prefix(ns, cs, r) + 1, StepOf(ns, cs, r).objects)
    ensures SameHealth(r.objects, StepOf(ns, cs, r).objects)
  {
    var statuses, step, m := Snapshot(ns, cs, r), StepOf(ns, cs, r), Prefix(ns, cs, r);
    var chosen := Chosen(cs, r.levels, statuses);
    RoundScales(ns, cs, r);
    PrefixIsOn(ns, cs, r);
    ChosenWakeable(ns, cs, r.levels, statuses, r.objects);
    ScaleUpTurnsOn(ns, chosen, 0, r.objects);
    forall i, k | 0 <= i < |cs| && 0 <= k < m + 1 && InLevel(r.levels, cs[i].name, k)
      ensures !OffIn(ns, cs[i], step.objects)
    {
      if k == m {
        ChosenHas(cs, r.levels, statuses, i);
        var j :| 0 <= j < |chosen| && chosen[j] == cs[i];
        assert !IsOff(chosen[j].kind, step.objects[KeyOf(ns, chosen[j])].scale);
      } else {
        assert !OffIn(ns, cs[i], r.objects);
      }
    }
  }

  /** What is switched on below level `m` has become ready by the next round. */
  lemma SettledPrefix(ns: string, cs: seq<Component>, levels: Levels, m: nat, o: Objects, next: Round)
    requires ValidSpec(cs) && LevelsOf(cs, levels) && RaiseRound(ns, cs, next)
    requires OnBelow(ns, cs, levels, m, o) && Settles(ns, cs, o, next.objects) && m <= |levels|
    ensures |levels| == |next.levels| && Prefix(ns, cs, next) >= m
  {
    LayeringIsUnique(DepsOf(cs), levels, next.levels);
    var n := Prefix(ns, cs, next);
    if n < m {
      forall i | 0 <= i < |cs| && cs[i].name in next.levels[n]
        ensures ObservedReady(ns, cs[i], i, {}, next.objects)
      {
        assert InLevel(levels, cs[i].name, n);
        assert !OffIn(ns, cs[i], o);
        assert SettledAt(ns, cs[i], next.objects);
      }
      LevelReadyIf(ns, cs, next, n);
    }
  }

  /** One round adds at least one ready level. */
  lemma RoundProgress(ns: string, cs: seq<Component>, r: Round, next: Round)
    requires ValidSpec(cs) && RaiseRound(ns, cs, r) && RaiseRound(ns, cs, next) && AllWakeable(ns, cs, r.objects)
    requires !AllReady(Snapshot(ns, cs, r)) && Follows(ns, cs, r, next)
    ensures |next.levels| == |r.levels| && Prefix(ns, cs, next) > Prefix(ns, cs, r)
  {
    RoundScales(ns, cs, r);
    RoundTurnsOn(ns, cs, r);
    SettledPrefix(ns, cs, r.levels, Prefix(ns, cs, r) + 1, StepOf(ns, cs, r).objects, next);
  }

  /** Once everything is ready, the service is awake and the next round finds everything ready again. */
  lemma RoundStays(ns: string, cs: seq<Component>, r: Round, next: Round)
    requires ValidSpec(cs) && WakeRound(ns, cs, r) && WakeRound(ns, cs, next)
    requires AllReady(Snapshot(ns, cs, r)) && Follows(ns, cs, r, next)
    ensures |next.levels| == |r.levels| && AllReady(Snapshot(ns, cs, next))
  {
    FullPrefixIffAllReady(ns, cs, r);
    PrefixIsOn(ns, cs, r);
    RoundAwake(ns, cs, r);
    SettledPrefix(ns, cs, r.levels, |r.levels|, r.objects, next);
    FullPrefixIffAllReady(ns, cs, next);
  }

  lemma RoundAwake(ns: string, cs: seq<Component>, r: Round)
    requires WakeRound(ns, cs, r) && AllReady(Snapshot(ns, cs, r))
    ensures var step := StepOf(ns, cs, r);
            step.objects == r.objects && step.status.state == Awake && step.requeue == Later
  {
    CompositeStep(ns, cs, r.levels, NO_FAULTS, r.status, r.objects);
  }

  // ------------------------------------------------------------ convergence

  ghost predicate WakingAt(ns: string, cs: seq<Component>, r: Round) {
    LevelsOf(cs, r.levels) && StepOf(ns, cs, r).status.state == Waking && StepOf(ns, cs, r).requeue == Soon
  }

  ghost predicate AwakeAt(ns: string, cs: seq<Component>, r: Round) {
    LevelsOf(cs, r.levels) && StepOf(ns, cs, r).status.state == Awake && StepOf(ns, cs, r).requeue == Later
  }

  /** A reconcile writes no scale that a zero declaration would turn off. */
  lemma RoundKeepsWakeable(ns: string, cs: seq<Component>, r: Round, next: Round)
    requires ValidSpec(cs) && WakeRound(ns, cs, r) && Follows(ns, cs, r, next) && AllWakeable(ns, cs, r.objects)
    ensures AllWakeable(ns, cs, next.objects)
  {
    if AllReady(Snapshot(ns, cs, r)) {
      RoundAwake(ns, cs, r);
    } else {
      RoundScales(ns, cs, r);
      ScaleUpIsConservative(ns, Chosen(cs, r.levels, Snapshot(ns, cs, r)), [], 0, r.objects);
    }
    forall i | 0 <= i < |cs|
      ensures WakeableIn(ns, cs[i], next.objects)
    {
      assert WakeableIn(ns, cs[i], r.objects);
    }
  }

  lemma {:induction false} WakeableThroughout(ns: string, cs: seq<Component>, rs: seq<Round>, i: nat)
    requires ValidSpec(cs) && WakeRun(ns, cs, rs) && i < |rs| && AllWakeable(ns, cs, rs[0].objects)
    ensures AllWakeable(ns, cs, rs[i].objects)
  {
    if i > 0 {
      WakeableThroughout(ns, cs, rs, i - 1);
      assert WakeRound(ns, cs, rs[i - 1]) && Follows(ns, cs, rs[i - 1], rs[i]);
      RoundKeepsWakeable(ns, cs, rs[i - 1], rs[i]);
    }
  }

  lemma {:induction false} PrefixGrows(ns: string, cs: seq<Component>, rs: seq<Round>, i: nat)
    requires ValidSpec(cs) && WakeRun(ns, cs, rs) && i < |rs| && AllWakeable(ns, cs, rs[0].objects)
    ensures |rs[i].levels| == |rs[0].levels|
    ensures Prefix(ns, cs, rs[i]) >= i || AllReady(Snapshot(ns, cs, rs[i]))
    ensures i > 0 && AllReady(Snapshot(ns, cs, rs[i - 1])) ==> AllReady(Snapshot(ns, cs, rs[i]))
  {
    if i > 0 {
      PrefixGrows(ns, cs, rs, i - 1);
      assert WakeRound(ns, cs, rs[i - 1]) && WakeRound(ns, cs, rs[i]);
      assert Follows(ns, cs, rs[i - 1], rs[i]);
      if AllReady(Snapshot(ns, cs, rs[i - 1])) {
        RoundStays(ns, cs, rs[i - 1], rs[i]);
      } else {
        WakeableThroughout(ns, cs, rs, i - 1);
        RoundProgress(ns, cs, rs[i - 1], rs[i]);
      }
    }
  }

  /** Once true always true: the flags turn at one index. */
  lemma {:induction false} Turns(flags: seq<bool>, n: nat) returns (k: nat)
    requires n < |flags| && flags[n] && forall i, j | 0 <= i < j < |flags| && j == i + 1 && flags[i] :: flags[j]
    ensures k <= n && forall i | 0 <= i < |flags| :: flags[i] <==> k <= i
    decreases |flags|
  {
    if flags[0] {
      k := 0;
      AllTrue(flags);
    } else {
      var j := Turns(flags[1..], n - 1);
      k := j + 1;
      assert forall i | 1 <= i < |flags| :: flags[i] == flags[1..][i - 1];
    }
  }

  lemma {:induction false} AllTrue(flags: seq<bool>)
    requires |flags| > 0 && flags[0] && forall i, j | 0 <= i < j < |flags| && j == i + 1 && flags[i] :: flags[j]
    ensures forall i | 0 <= i < |flags| :: flags[i]
    decreases |flags|
  {
    if |flags| > 1 {
      assert flags[1];
      AllTrue(flags[1..]);
      assert forall i | 1 <= i < |flags| :: flags[i] == flags[1..][i - 1];
    }
  }

  ghost function ReadyFlags(ns: string, cs: seq<Component>, rs: seq<Round>): seq<bool> {
    seq(|rs|, i requires 0 <= i < |rs| => AllReady(Snapshot(ns, cs, rs[i])))
  }

  lemma FlagsStay(ns: string, cs: seq<Component>, rs: seq<Round>)
    requires ValidSpec(cs) && WakeRun(ns, cs, rs) && |rs| > 0 && AllWakeable(ns, cs, rs[0].objects)
    ensures forall i, j | 0 <= i < j < |rs| && j == i + 1 && ReadyFlags(ns, cs, rs)[i] :: ReadyFlags(ns, cs, rs)[j]
  {
    forall i, j | 0 <= i < j < |rs| && j == i + 1 && ReadyFlags(ns, cs, rs)[i]
      ensures ReadyFlags(ns, cs, rs)[j]
    {
      PrefixGrows(ns, cs, rs, j);
    }
  }

  /**
   Convergence.  On a valid spec with L levels, from any cluster and any stored state, a wake run is Waking
   with a short requeue for at most L reconciles and Awake from then on, provided that whatever declares zero replicas
   is already on.
   */
  lemma WakeUpConverges(ns: string, cs: seq<Component>, rs: seq<Round>) returns (k: nat)
    requires ValidSpec(cs) && WakeRun(ns, cs, rs) && |rs| > 0 && |rs| > |rs[0].levels|
    requires AllWakeable(ns, cs, rs[0].objects)
    ensures k <= |rs[0].levels|
    ensures forall i | 0 <= i < k :: WakingAt(ns, cs, rs[i])
    ensures forall i | k <= i < |rs| :: AwakeAt(ns, cs, rs[i])
  {
    var n := |rs[0].levels|;
    PrefixGrows(ns, cs, rs, n);
    assert WakeRound(ns, cs, rs[n]);
    FullPrefixIffAllReady(ns, cs, rs[n]);
    FlagsStay(ns, cs, rs);
    var flags := ReadyFlags(ns, cs, rs);
    k := Turns(flags, n);
    forall i | 0 <= i < k
      ensures WakingAt(ns, cs, rs[i])
    {
      assert !flags[i] && WakeRound(ns, cs, rs[i]);
      RoundScales(ns, cs, rs[i]);
    }
    forall i | k <= i < |rs|
      ensures AwakeAt(ns, cs, rs[i])
    {
      assert flags[i] && WakeRound(ns, cs, rs[i]);
      RoundAwake(ns, cs, rs[i]);
    }
  }

  // ------------------------------------------------------------ a declared count of zero

  lemma DistinctKeys(ns: string, cs: seq<Component>, i: nat, j: nat)
    requires DistinctRefs(ns, cs) && i < |cs| && j < |cs|
    ensures KeyOf(ns, cs[i]) == KeyOf(ns, cs[j]) <==> i == j
  {
  }

  lemma {:induction false} ScaleUpKeepsZero(ns: string, cs: seq<Component>, i: nat, o: Objects, c: Component)
    requires i <= |cs| && OffIn(ns, c, o)
    requires forall j | 0 <= j < |cs| && KeyOf(ns, cs[j]) == KeyOf(ns, c) :: !CanWake(cs[j])
    ensures OffIn(ns, c, ScaleUpAll(ns, cs, [], i, o).objects)
    decreases |cs| - i
  {
    if i < |cs| {
      ScaleUpKeepsZero(ns, cs, i + 1, ScaleUpOne(ns, cs[i], NoFault, o).objects, c);
    }
  }

  lemma ZeroStaysOff(ns: string, cs: seq<Component>, r: Round, i: nat)
    requires ValidSpec(cs) && WakeRound(ns, cs, r) && DistinctRefs(ns, cs)
    requires i < |cs| && !CanWake(cs[i]) && OffIn(ns, cs[i], r.objects)
    ensures OffIn(ns, cs[i], StepOf(ns, cs, r).objects) && !AwakeAt(ns, cs, r)
  {
    assert !Snapshot(ns, cs, r)[i].ready;
    RoundScales(ns, cs, r);
    var chosen := Chosen(cs, r.levels, Snapshot(ns, cs, r));
    ChosenIsPresent(ns, cs, r.levels, Snapshot(ns, cs, r), r.objects);
    forall j | 0 <= j < |chosen| && KeyOf(ns, chosen[j]) == KeyOf(ns, cs[i])
      ensures !CanWake(chosen[j])
    {
      assert chosen[j] in cs;
      var l :| 0 <= l < |cs| && cs[l] == chosen[j];
      DistinctKeys(ns, cs, l, i);
    }
    ScaleUpKeepsZero(ns, chosen, 0, r.objects, cs[i]);
  }

  lemma {:induction false} ZeroNeverAwake(ns: string, cs: seq<Component>, rs: seq<Round>, i: nat, m: nat)
    requires ValidSpec(cs) && WakeRun(ns, cs, rs) && DistinctRefs(ns, cs) && m < |rs|
    requires i < |cs| && !CanWake(cs[i]) && OffIn(ns, cs[i], rs[0].objects)
    ensures OffIn(ns, cs[i], rs[m].objects) && !AwakeAt(ns, cs, rs[m])
  {
    assert WakeRound(ns, cs, rs[m]);
    if m > 0 {
      ZeroNeverAwake(ns, cs, rs, i, m - 1);
      assert WakeRound(ns, cs, rs[m - 1]) && Follows(ns, cs, rs[m - 1], rs[m]);
      ZeroStaysOff(ns, cs, rs[m - 1], i);
    }
    ZeroStaysOff(ns, cs, rs[m], i);
  }

  /** A component that declares zero replicas has an explicit count, as the API server fills it in. */
  ghost predicate ZeroesExplicit(ns: string, cs: seq<Component>, o: Objects) {
    forall i | 0 <= i < |cs| && !CanWake(cs[i]) :: KeyOf(ns, cs[i]) in o && o[KeyOf(ns, cs[i])].scale.replicas.Some?
  }

  lemma LastRound(ns: string, cs: seq<Component>, r: Round)
    requires ValidSpec(cs) && WakeRound(ns, cs, r)
    ensures AwakeAt(ns, cs, r) <==> StepOf(ns, cs, r).status.state == Awake
  {
    if AllReady(Snapshot(ns, cs, r)) {
      RoundAwake(ns, cs, r);
    } else {
      RoundScales(ns, cs, r);
    }
  }

  /** From any cluster, L + 1 rounds end Awake exactly when nothing that declares zero replicas was off at the start. */
  lemma WakesIff(ns: string, cs: seq<Component>, rs: seq<Round>)
    requires ValidSpec(cs) && DistinctRefs(ns, cs) && WakeRun(ns, cs, rs) && |rs| > 0 && |rs| > |rs[0].levels|
    requires ZeroesExplicit(ns, cs, rs[0].objects)
    ensures StepOf(ns, cs, rs[|rs| - 1]).status.state == Awake <==>
            forall i | 0 <= i < |cs| && cs[i].kind != CNPGCluster && cs[i].replicas == Some(0) ::
              var key := ResourceKey(
                           cs[i].kind, if cs[i].ref.namespace == "" then ns else cs[i].ref.namespace, cs[i].ref.name);
              rs[0].objects[key].scale.replicas != Some(0)
  {
    assert WakeRound(ns, cs, rs[|rs| - 1]) && WakeRound(ns, cs, rs[0]);
    forall i | 0 <= i < |cs|
      ensures !CanWake(cs[i]) <==> cs[i].kind != CNPGCluster && cs[i].replicas == Some(0)
      ensures KeyOf(ns, cs[i]) in rs[0].objects
    {
    }
    LastRound(ns, cs, rs[|rs| - 1]);
    if i :| 0 <= i < |cs| && !CanWake(cs[i]) && OffIn(ns, cs[i], rs[0].objects) {
      ZeroNeverAwake(ns, cs, rs, i, |rs| - 1);
    } else {
      var k := WakeUpConverges(ns, cs, rs);
    }
  }

  // ------------------------------------------------------------ round trip

  /** The scale every object should have once `levels` below `m` have been woken after a scale-down of `o`. */
  ghost predicate WokenBelow(ns: string, cs: seq<Component>, levels: Levels, m: nat, o: Objects, now: Objects) {
    && now.Keys == o.Keys
    && (forall i, k: nat | 0 <= i < |cs| && InLevel(levels, cs[i].name, k) :: WokenAt(ns, cs[i], k < m, o, now))
    && (forall key | key in o && !NamesKey(ns, cs, 0, key) :: now[key].scale == o[key].scale)
  }

  ghost predicate WokenAt(ns: string, c: Component, woken: bool, o: Objects, now: Objects) {
    var key := KeyOf(ns, c);
    && key in o && key in now
    && var down := ScaledDown(c.kind, o[key].scale);
       now[key].scale == if woken then ScaledUp(c, down) else down
  }

  lemma DownThenUp(c: Component, s: Scale)
    requires CanSleep(c.kind, s) && CanWake(c)
    ensures var down := ScaledDown(c.kind, s);
            && IsOff(c.kind, down) && !IsOff(c.kind, ScaledUp(c, down))
            && ScaledUp(c, down) == if c.kind.CNPGCluster? then s.(annotations := s.annotations - {HIBERNATION})
                                    else s.(replicas := Some(DeclaredReplicas(c)))
  {
  }

  ghost predicate Explicit(ns: string, cs: seq<Component>, o: Objects) {
    forall i | 0 <= i < |cs| :: CanSleepIn(ns, cs[i], o)
  }

  /** In the round that finds exactly the levels below `m` woken and settled, level `m` is the one to scale. */
  lemma WokenPrefix(ns: string, cs: seq<Component>, r: Round, m: nat, o: Objects)
    requires ValidSpec(cs) && Wakeable(cs) && WakeRound(ns, cs, r) && Explicit(ns, cs, o) && m < |r.levels|
    requires WokenBelow(ns, cs, r.levels, m, o, r.objects) && Settles(ns, cs, r.objects, r.objects)
    ensures Prefix(ns, cs, r) == m && !AllReady(Snapshot(ns, cs, r))
  {
    forall i, k | 0 <= i < |cs| && 0 <= k < m && InLevel(r.levels, cs[i].name, k)
      ensures !OffIn(ns, cs[i], r.objects)
    {
      assert WokenAt(ns, cs[i], k < m, o, r.objects) && CanSleepIn(ns, cs[i], o);
      DownThenUp(cs[i], o[KeyOf(ns, cs[i])].scale);
    }
    SettledPrefix(ns, cs, r.levels, m, r.objects, r);
    LevelNamesExist(cs, r.levels, m);
    var n := r.levels[m][0];
    assert n in r.levels[m];
    ByNameAt(cs, n);
    var i :| 0 <= i < |cs| && cs[i].name == n;
    assert InLevel(r.levels, cs[i].name, m);
    assert WokenAt(ns, cs[i], m < m, o, r.objects) && CanSleepIn(ns, cs[i], o);
    DownThenUp(cs[i], o[KeyOf(ns, cs[i])].scale);
    if Prefix(ns, cs, r) > m {
      ReadyLevelAt(ns, cs, r, m, i);
    }
    FullPrefixIffAllReady(ns, cs, r);
  }

  lemma ChosenDistinct(ns: string, cs: seq<Component>, levels: Levels, statuses: seq<ComponentStatus>)
    requires ValidSpec(cs) && IsLayering(DepsOf(cs), levels) && DistinctRefs(ns, cs)
    ensures DistinctRefs(ns, Chosen(cs, levels, statuses))
  {
    var k := CurrentLevel(levels, statuses);
    if k >= 0 {
      LevelNamesExist(cs, levels, k);
      var chosen := Chosen(cs, levels, statuses);
      forall a, b | 0 <= a < b < |chosen|
        ensures KeyOf(ns, chosen[a]) != KeyOf(ns, chosen[b])
      {
        assert levels[k][a] in levels[k] && levels[k][b] in levels[k] && levels[k][a] != levels[k][b];
        ByNameAt(cs, levels[k][a]);
        ByNameAt(cs, levels[k][b]);
        var i :| 0 <= i < |cs| && cs[i] == chosen[a] && cs[i].name == levels[k][a];
        var j :| 0 <= j < |cs| && cs[j] == chosen[b] && cs[j].name == levels[k][b];
        DistinctKeys(ns, cs, i, j);
      }
    }
  }

  /** A component outside the chosen level keeps its scale. */
  lemma UnchosenKeeps(ns: string, cs: seq<Component>, r: Round, i: nat)
    requires ValidSpec(cs) && WakeRound(ns, cs, r) && DistinctRefs(ns, cs) && i < |cs|
    requires var k := CurrentLevel(r.levels, Snapshot(ns, cs, r)); k >= 0 && cs[i].name !in r.levels[k]
    ensures !NamesKey(ns, Chosen(cs, r.levels, Snapshot(ns, cs, r)), 0, KeyOf(ns, cs[i]))
  {
    var k := CurrentLevel(r.levels, Snapshot(ns, cs, r));
    LevelNamesExist(cs, r.levels, k);
    var chosen := Chosen(cs, r.levels, Snapshot(ns, cs, r));
    forall j | 0 <= j < |chosen|
      ensures KeyOf(ns, chosen[j]) != KeyOf(ns, cs[i])
    {
      assert r.levels[k][j] in r.levels[k];
      ByNameAt(cs, r.levels[k][j]);
      var l :| 0 <= l < |cs| && cs[l] == chosen[j] && cs[l].name == r.levels[k][j];
      DistinctKeys(ns, cs, l, i);
    }
  }

  lemma WokenStep(ns: string, cs: seq<Component>, r: Round, m: nat, o: Objects)
    requires ValidSpec(cs) && Wakeable(cs) && WakeRound(ns, cs, r) && Explicit(ns, cs, o) && DistinctRefs(ns, cs)
    requires m < |r.levels| && WokenBelow(ns, cs, r.levels, m, o, r.objects) && Settles(ns, cs, r.objects, r.objects)
    ensures WokenBelow(ns, cs, r.levels, m + 1, o, StepOf(ns, cs, r).objects)
  {
    WokenPrefix(ns, cs, r, m, o);
    RoundScales(ns, cs, r);
    var chosen, after := Chosen(cs, r.levels, Snapshot(ns, cs, r)), StepOf(ns, cs, r).objects;
    ChosenIsPresent(ns, cs, r.levels, Snapshot(ns, cs, r), r.objects);
    ChosenDistinct(ns, cs, r.levels, Snapshot(ns, cs, r));
    ScaleUpPointwise(ns, chosen, 0, r.objects);
    forall i, k: nat | 0 <= i < |cs| && InLevel(r.levels, cs[i].name, k)
      ensures WokenAt(ns, cs[i], k < m + 1, o, after)
    {
      assert WokenAt(ns, cs[i], k < m, o, r.objects);
      if k == m {
        ChosenHas(cs, r.levels, Snapshot(ns, cs, r), i);
        var j :| 0 <= j < |chosen| && chosen[j] == cs[i];
        assert RaisedAt(ns, chosen[j], r.objects, after);
      } else {
        if cs[i].name in r.levels[m] {
          LevelIsUnique(DepsOf(cs), r.levels, cs[i].name, k, m);
        }
        UnchosenKeeps(ns, cs, r, i);
      }
    }
    ChosenKeys(ns, cs, chosen);
  }

  lemma ChosenKeys(ns: string, cs: seq<Component>, chosen: seq<Component>)
    requires forall c | c in chosen :: c in cs
    ensures forall key | NamesKey(ns, chosen, 0, key) :: NamesKey(ns, cs, 0, key)
  {
    forall key | NamesKey(ns, chosen, 0, key)
      ensures NamesKey(ns, cs, 0, key)
    {
      var j :| 0 <= j < |chosen| && KeyOf(ns, chosen[j]) == key;
      assert chosen[j] in cs;
      var l :| 0 <= l < |cs| && cs[l] == chosen[j];
    }
  }

  lemma WokenTransfers(
    ns: string, cs: seq<Component>, a: Levels, b: Levels, m: nat, o: Objects, now: Objects, next: Objects)
    requires ValidSpec(cs) && LevelsOf(cs, a) && LevelsOf(cs, b)
    requires WokenBelow(ns, cs, a, m, o, now) && Settles(ns, cs, now, next)
    ensures WokenBelow(ns, cs, b, m, o, next) && Settles(ns, cs, next, next)
  {
    LayeringIsUnique(DepsOf(cs), a, b);
    forall i, k: nat | 0 <= i < |cs| && InLevel(b, cs[i].name, k)
      ensures WokenAt(ns, cs[i], k < m, o, next)
    {
      assert InLevel(a, cs[i].name, k);
      assert WokenAt(ns, cs[i], k < m, o, now);
    }
  }

  /** After the scale-down nothing has been woken yet. */
  lemma WokenAtStart(ns: string, cs: seq<Component>, levels: Levels, o: Objects, next: Objects)
    requires Explicit(ns, cs, o) && DistinctRefs(ns, cs) && Present(ns, cs, o)
    requires Settles(ns, cs, ScaleDownAll(ns, cs, [], 0, o).objects, next)
    ensures WokenBelow(ns, cs, levels, 0, o, next) && Settles(ns, cs, next, next)
  {
    var down := ScaleDownAll(ns, cs, [], 0, o).objects;
    ScaleDownPointwise(ns, cs, 0, o);
    forall j, k: nat | 0 <= j < |cs| && InLevel(levels, cs[j].name, k)
      ensures WokenAt(ns, cs[j], k < 0, o, next)
    {
      assert LoweredAt(ns, cs[j], o, down);
    }
  }

  /** One round later the next level has been woken. */
  lemma WokenNext(ns: string, cs: seq<Component>, r: Round, next: Round, m: nat, o: Objects)
    requires ValidSpec(cs) && Wakeable(cs) && WakeRound(ns, cs, r) && WakeRound(ns, cs, next)
    requires Explicit(ns, cs, o) && DistinctRefs(ns, cs) && Follows(ns, cs, r, next)
    requires WokenBelow(ns, cs, r.levels, m, o, StepOf(ns, cs, r).objects) && m < |r.levels|
    ensures |next.levels| == |r.levels|
    ensures WokenBelow(ns, cs, next.levels, m + 1, o, StepOf(ns, cs, next).objects)
  {
    LayeringIsUnique(DepsOf(cs), r.levels, next.levels);
    WokenTransfers(ns, cs, r.levels, next.levels, m, o, StepOf(ns, cs, r).objects, next.objects);
    WokenStep(ns, cs, next, m, o);
  }

  lemma ExplicitIsPresent(ns: string, cs: seq<Component>, o: Objects)
    requires Explicit(ns, cs, o)
    ensures Present(ns, cs, o)
  {
    forall i | 0 <= i < |cs|
      ensures KeyOf(ns, cs[i]) in o
    {
      assert CanSleepIn(ns, cs[i], o);
    }
  }

  lemma {:induction false} WokenAfter(ns: string, cs: seq<Component>, rs: seq<Round>, o: Objects, i: nat)
    requires ValidSpec(cs) && Wakeable(cs) && Explicit(ns, cs, o) && DistinctRefs(ns, cs) && WakeRun(ns, cs, rs)
    requires i < |rs| && i < |rs[0].levels|
    requires Settles(ns, cs, ScaleDownAll(ns, cs, [], 0, o).objects, rs[0].objects)
    ensures |rs[i].levels| == |rs[0].levels|
    ensures WokenBelow(ns, cs, rs[i].levels, i + 1, o, StepOf(ns, cs, rs[i]).objects)
  {
    assert WakeRound(ns, cs, rs[i]);
    if i == 0 {
      ExplicitIsPresent(ns, cs, o);
      WokenAtStart(ns, cs, rs[0].levels, o, rs[0].objects);
      WokenStep(ns, cs, rs[0], 0, o);
    } else {
      WokenAfter(ns, cs, rs, o, i - 1);
      assert WakeRound(ns, cs, rs[i - 1]) && Follows(ns, cs, rs[i - 1], rs[i]);
      WokenNext(ns, cs, rs[i - 1], rs[i], i, o);
    }
  }

  /**
   Round trip.  A successful scale-down and then as many wake rounds as there are levels put every workload at
   its declared count and remove only the hibernation key; scales of unrelated objects are untouched.
   */
  lemma HibernateThenWake(ns: string, cs: seq<Component>, rs: seq<Round>, o: Objects)
    requires ValidSpec(cs) && Wakeable(cs) && Explicit(ns, cs, o) && DistinctRefs(ns, cs) && WakeRun(ns, cs, rs)
    requires |rs| > 0 && |rs| == |rs[0].levels|
    requires Settles(ns, cs, ScaleDownAll(ns, cs, [], 0, o).objects, rs[0].objects)
    ensures var final := StepOf(ns, cs, rs[|rs| - 1]).objects;
            && final.Keys == o.Keys
            && (forall i | 0 <= i < |cs| :: RestoredAt(ns, cs[i], o, final))
            && (forall key | key in o && !NamesKey(ns, cs, 0, key) :: final[key].scale == o[key].scale)
  {
    var n := |rs| - 1;
    WokenAfter(ns, cs, rs, o, n);
    var final := StepOf(ns, cs, rs[n]).objects;
    assert WakeRound(ns, cs, rs[n]);
    forall i | 0 <= i < |cs|
      ensures RestoredAt(ns, cs[i], o, final)
    {
      var k := LevelOfComponent(cs, rs[n].levels, i);
      assert WokenAt(ns, cs[i], k < n + 1, o, final) && CanSleepIn(ns, cs[i], o);
      DownThenUp(cs[i], o[KeyOf(ns, cs[i])].scale);
    }
  }

  /** A workload has its declared count, one if none is declared; a cluster has lost the hibernation annotation only. */
  ghost predicate RestoredAt(ns: string, c: Component, o: Objects, final: Objects) {
    var key := ResourceKey(c.kind, if c.ref.namespace == "" then ns else c.ref.namespace, c.ref.name);
    && key in o && key in final
    && match c.kind
       case CNPGCluster =>
         final[key].scale == Scale(o[key].scale.replicas, o[key].scale.annotations - {"cnpg.io/hibernation"})
       case _ =>
         && final[key].scale.annotations == o[key].scale.annotations
         && match c.replicas
            case Some(n) => final[key].scale.replicas == Some(n)
            case None => final[key].scale.replicas == Some(1)
  }
}
