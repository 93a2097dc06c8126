/**
 What a reconcile promises, in terms of the fields of the spec and of the cluster objects: when Awake is stored,
 which counts and annotations are written, where a write may happen, and how far a pass gets that fails.
 */
module ClusterLaws {
  import opened Types
  import opened Walks
  import opened Layering
  import opened Dependencies
  import opened Scaling
  import opened Reconciling
  import opened ReconcileLaws

  // ------------------------------------------------------------ readiness

  /**
   A workload wants some pods, one where no count is given, and has as many ready; a cluster is not hibernated,
   healthy, and has a ready instance.
   */
  predicate ReadyInCluster(ns: string, c: Component, o: Objects) {
    var key := ResourceKey(c.kind, if c.ref.namespace == "" then ns else c.ref.namespace, c.ref.name);
    && key in o
    && match c.kind
       case CNPGCluster =>
         && !("cnpg.io/hibernation" in o[key].scale.annotations
              && o[key].scale.annotations["cnpg.io/hibernation"] == "on")
         && o[key].health.cnpg.Some? && o[key].health.cnpg.value.phase == "Cluster in healthy state"
         && o[key].health.cnpg.value.readyInstances > 0
       case _ =>
         match o[key].scale.replicas
         case Some(n) => n != 0 && o[key].health.readyReplicas >= n
         case None => o[key].health.readyReplicas >= 1
  }

  /** The snapshot follows the spec, and records a component as ready exactly when it could be read and is ready. */
  lemma SnapshotOnFields(ns: string, cs: seq<Component>, unreadable: set<nat>, o: Objects, i: nat)
    requires i < |cs|
    ensures var statuses := Observe(ns, cs, unreadable, o);
            && |statuses| == |cs| && statuses[i].name == cs[i].name
            && (statuses[i].ready <==> i !in unreadable && ReadyInCluster(ns, cs[i], o))
  {
  }

  /**
   A reconcile that does not fail stores Awake exactly when sleep is not desired and every component could be read
   and is ready in the cluster.
   */
  lemma StoredAwakeIff(ns: string, cs: seq<Component>, levels: Levels, faults: Faults, st: Status, o: Objects)
    requires LevelsOf(cs, levels) && Reconcile(ns, cs, levels, faults, st, o).requeue != Failed
    ensures Reconcile(ns, cs, levels, faults, st, o).status.state == Awake <==>
            && st.desired != Sleeping && st.desired != Unset
            && forall i | 0 <= i < |cs| :: i !in faults.unreadable && ReadyInCluster(ns, cs[i], o)
  {
    AwakeIff(ns, cs, levels, faults, st, o);
    AllReadyIff(ns, cs, faults.unreadable, o);
  }

  lemma AllReadyIff(ns: string, cs: seq<Component>, unreadable: set<nat>, o: Objects)
    ensures AllReady(Observe(ns, cs, unreadable, o)) <==>
            forall i | 0 <= i < |cs| :: i !in unreadable && ReadyInCluster(ns, cs[i], o)
  {
    var statuses := Observe(ns, cs, unreadable, o);
    forall i | 0 <= i < |cs|
      ensures statuses[i].ready <==> i !in unreadable && ReadyInCluster(ns, cs[i], o)
    {
      SnapshotOnFields(ns, cs, unreadable, o, i);
    }
  }

  /** With all that given nothing is left to fail but the status write. */
  lemma ReadyDoesNotFail(ns: string, cs: seq<Component>, levels: Levels, faults: Faults, st: Status, o: Objects)
    requires LevelsOf(cs, levels) && !faults.statusConflict && st.desired != Sleeping && st.desired != Unset
    requires forall i | 0 <= i < |cs| :: i !in faults.unreadable && ReadyInCluster(ns, cs[i], o)
    ensures Reconcile(ns, cs, levels, faults, st, o).requeue == Later
    ensures Reconcile(ns, cs, levels, faults, st, o).status.state == Awake
    ensures Reconcile(ns, cs, levels, faults, st, o).objects == o
  {
    AllReadyIff(ns, cs, faults.unreadable, o);
    CompositeStep(ns, cs, levels, faults, st, o);
  }

  // ------------------------------------------------------------ writes

  /**
   A scale-up that succeeds writes the declared count, one where none is declared, to a workload without a count or
   with a count of zero, and takes the hibernation annotation off a hibernated cluster.  Anything else stays.
   */
  lemma RaiseOnFields(ns: string, c: Component, fault: Fault, o: Objects)
    requires ScaleUpOne(ns, c, fault, o).err.None?
    ensures var key := ResourceKey(c.kind, if c.ref.namespace == "" then ns else c.ref.namespace, c.ref.name);
            && fault != GetFails && key in o
            && ScaleUpOne(ns, c, fault, o).objects ==
               match c.kind
               case CNPGCluster =>
                 if "cnpg.io/hibernation" in o[key].scale.annotations
                    && o[key].scale.annotations["cnpg.io/hibernation"] == "on"
                 then o[key := Resource(
                                 Scale(o[key].scale.replicas, o[key].scale.annotations - {"cnpg.io/hibernation"}),
                                 o[key].health)]
                 else o
               case _ =>
                 if o[key].scale.replicas == None || o[key].scale.replicas == Some(0)
                 then o[key := Resource(
                                 Scale(if c.replicas.Some? then c.replicas else Some(1), o[key].scale.annotations),
                                 o[key].health)]
                 else o
  {
    var key := KeyOf(ns, c);
    assert o[key := o[key]] == o;
  }

  /** A scale-down that succeeds writes zero to a positive count and hibernates a cluster that is not hibernated. */
  lemma LowerOnFields(ns: string, c: Component, fault: Fault, o: Objects)
    requires ScaleDownOne(ns, c, fault, o).err.None?
    ensures var key := ResourceKey(c.kind, if c.ref.namespace == "" then ns else c.ref.namespace, c.ref.name);
            && fault != GetFails && key in o
            && ScaleDownOne(ns, c, fault, o).objects ==
               match c.kind
               case CNPGCluster =>
                 if "cnpg.io/hibernation" in o[key].scale.annotations
                    && o[key].scale.annotations["cnpg.io/hibernation"] == "on"
                 then o
                 else o[key := Resource(
                                 Scale(o[key].scale.replicas, o[key].scale.annotations["cnpg.io/hibernation" := "on"]),
                                 o[key].health)]
               case _ =>
                 match o[key].scale.replicas
                 case Some(n) =>
                   if n > 0 then o[key := Resource(Scale(Some(0), o[key].scale.annotations), o[key].health)] else o
                 case None => o
  {
  }

  /** A sleep request honoured, on the fields: every workload at zero, every cluster annotated. */
  lemma SleepOnFields(ns: string, cs: seq<Component>, levels: Levels, st: Status, o: Objects, i: nat)
    requires LevelsOf(cs, levels) && (st.desired == Sleeping || st.desired == Unset) && i < |cs|
    requires AllReady(Observe(ns, cs, {}, o)) && AllCanSleep(ns, cs, o)
    ensures var r := Reconcile(ns, cs, levels, NO_FAULTS, st, o);
            var key := ResourceKey(
                         cs[i].kind, if cs[i].ref.namespace == "" then ns else cs[i].ref.namespace, cs[i].ref.name);
            && r.requeue == Later && r.status.state == Sleeping && key in r.objects
            && match cs[i].kind
               case CNPGCluster =>
                 && "cnpg.io/hibernation" in r.objects[key].scale.annotations
                 && r.objects[key].scale.annotations["cnpg.io/hibernation"] == "on"
               case _ => r.objects[key].scale.replicas == Some(0)
  {
    SleepHonouredWhenReady(ns, cs, levels, st, o);
    assert OffIn(ns, cs[i], Reconcile(ns, cs, levels, NO_FAULTS, st, o).objects);
  }

  // ------------------------------------------------------------ how far a failing pass gets

  /** A failing scale-up has done its work up to one component, which was missing or met a fault, and nothing after. */
  lemma {:induction false} ScaleUpStopsAtError(
    ns: string, cs: seq<Component>, faults: seq<Fault>, i: nat, o: Objects) returns (j: nat)
    requires i <= |cs| && ScaleUpAll(ns, cs, faults, i, o).err.Some?
    ensures i <= j < |cs|
    ensures var r := ScaleUpAll(ns, cs, faults, i, o);
            && r.objects == ScaleUpAll(ns, cs[..j], [], i, o).objects
            && ScaleUpAll(ns, cs[..j], [], i, o).err.None?
            && (KeyOf(ns, cs[j]) !in r.objects || (j < |faults| && faults[j] != NoFault))
    decreases |cs| - i
  {
    var first := ScaleUpOne(ns, cs[i], FaultAt(faults, i), o);
    if first.err.Some? {
      j := i;
    } else {
      j := ScaleUpStopsAtError(ns, cs, faults, i + 1, first.objects);
      assert cs[..j][i] == cs[i];
    }
  }

  lemma {:induction false} ScaleDownStopsAtError(
    ns: string, cs: seq<Component>, faults: seq<Fault>, i: nat, o: Objects) returns (j: nat)
    requires i <= |cs| && ScaleDownAll(ns, cs, faults, i, o).err.Some?
    ensures i <= j < |cs|
    ensures var r := ScaleDownAll(ns, cs, faults, i, o);
            && r.objects == ScaleDownAll(ns, cs[..j], [], i, o).objects
            && ScaleDownAll(ns, cs[..j], [], i, o).err.None?
            && (KeyOf(ns, cs[j]) !in r.objects || (j < |faults| && faults[j] != NoFault))
    decreases |cs| - i
  {
    var first := ScaleDownOne(ns, cs[i], FaultAt(faults, i), o);
    if first.err.Some? {
      j := i;
    } else {
      j := ScaleDownStopsAtError(ns, cs, faults, i + 1, first.objects);
      assert cs[..j][i] == cs[i];
    }
  }

  lemma {:induction false} ScaleUpWithoutError(
    ns: string, cs: seq<Component>, faults: seq<Fault>, i: nat, o: Objects)
    requires i <= |cs| && ScaleUpAll(ns, cs, faults, i, o).err.None?
    ensures ScaleUpAll(ns, cs, faults, i, o) == ScaleUpAll(ns, cs, [], i, o)
    decreases |cs| - i
  {
    if i < |cs| {
      var first := ScaleUpOne(ns, cs[i], FaultAt(faults, i), o);
      assert first == ScaleUpOne(ns, cs[i], NoFault, o);
      ScaleUpWithoutError(ns, cs, faults, i + 1, first.objects);
    }
  }

  /** A reconcile that does not fail has done all the work that one without faults does on the same snapshot. */
  lemma SuccessIsComplete(ns: string, cs: seq<Component>, levels: Levels, faults: Faults, st: Status, o: Objects)
    requires LevelsOf(cs, levels) && Reconcile(ns, cs, levels, faults, st, o).requeue != Failed
    ensures Reconcile(ns, cs, levels, faults, st, o) ==
            Reconcile(ns, cs, levels, Faults(faults.unreadable, [], false), st, o)
  {
    var statuses := Observe(ns, cs, faults.unreadable, o);
    if ValidSpec(cs) && ScaleUp(ns, cs, levels, statuses, faults.scaling, o).err.None? {
      ScaleUpWithoutError(ns, Chosen(cs, levels, statuses), faults.scaling, 0, o);
    }
    if ScaleDownAll(ns, cs, faults.scaling, 0, o).err.None? {
      ScaleDownWithoutError(ns, cs, faults.scaling, 0, o);
    }
  }

  // ------------------------------------------------------------ the spec on its fields

  /** Positions in the component list, each naming the next one among its dependencies. */
  ghost predicate Chain(cs: seq<Component>, at: seq<nat>) {
    && |at| > 0 && (forall k | 0 <= k < |at| :: at[k] < |cs|)
    && forall k, l | 0 <= k < l < |at| && l == k + 1 :: cs[at[l]].name in cs[at[k]].dependsOn
  }

  lemma PositionOf(cs: seq<Component>, n: string) returns (i: nat)
    requires UniqueNames(cs) && n in DepsOf(cs)
    ensures i < |cs| && cs[i].name == n && DepsOf(cs)[n] == cs[i].dependsOn
  {
    ByNameAt(cs, n);
    i :| 0 <= i < |cs| && cs[i] == ByName(cs)[n] && cs[i].name == n;
  }

  lemma DepsAt(cs: seq<Component>, i: nat)
    requires UniqueNames(cs) && i < |cs|
    ensures cs[i].name in DepsOf(cs) && DepsOf(cs)[cs[i].name] == cs[i].dependsOn
  {
    assert cs[i].name in ByName(cs) && ByName(cs)[cs[i].name] == cs[i];
  }

  function Names(cs: seq<Component>, at: seq<nat>): (w: seq<string>)
    requires forall k | 0 <= k < |at| :: at[k] < |cs|
    ensures |w| == |at| && forall k | 0 <= k < |at| :: w[k] == cs[at[k]].name
  {
    seq(|at|, k requires 0 <= k < |at| => cs[at[k]].name)
  }

  lemma ChainIsWalk(cs: seq<Component>, at: seq<nat>)
    requires UniqueNames(cs) && Chain(cs, at)
    ensures IsWalk(DepsOf(cs), Names(cs, at))
  {
    var w := Names(cs, at);
    forall k | 0 <= k < |at|
      ensures w[k] in DepsOf(cs) && DepsOf(cs)[w[k]] == cs[at[k]].dependsOn
    {
      DepsAt(cs, at[k]);
    }
  }

  lemma {:induction false} WalkIsChain(cs: seq<Component>, w: seq<string>) returns (at: seq<nat>)
    requires UniqueNames(cs) && IsWalk(DepsOf(cs), w)
    ensures Chain(cs, at) && |at| == |w| && Names(cs, at) == w
    decreases |w|
  {
    var i := PositionOf(cs, w[0]);
    if |w| == 1 {
      at := [i];
    } else {
      WalkTail(DepsOf(cs), w);
      var rest := WalkIsChain(cs, w[1..]);
      at := [i] + rest;
      assert cs[rest[0]].name == w[1];
      forall k, l | 0 <= k < l < |at| && l == k + 1
        ensures cs[at[l]].name in cs[at[k]].dependsOn
      {
        if k > 0 {
          assert at[k] == rest[k - 1] && at[l] == rest[l - 1];
        }
      }
    }
  }

  /** What a spec has to satisfy, on its fields: distinct names, listed dependencies, and no chain back to its start. */
  lemma ValidSpecIff(cs: seq<Component>)
    ensures ValidSpec(cs) <==>
            && (forall i, j | 0 <= i < j < |cs| :: cs[i].name != cs[j].name)
            && (forall i, d | 0 <= i < |cs| && d in cs[i].dependsOn :: exists j :: 0 <= j < |cs| && cs[j].name == d)
            && (forall at | Chain(cs, at) && |at| >= 2 :: at[0] != at[|at| - 1])
  {
    if UniqueNames(cs) {
      ClosedIff(cs);
      AcyclicIff(cs);
    }
  }

  lemma ClosedIff(cs: seq<Component>)
    requires UniqueNames(cs)
    ensures Closed(DepsOf(cs)) <==>
            forall i, d | 0 <= i < |cs| && d in cs[i].dependsOn :: exists j :: 0 <= j < |cs| && cs[j].name == d
  {
    var g := DepsOf(cs);
    if Closed(g) {
      forall i, d | 0 <= i < |cs| && d in cs[i].dependsOn
        ensures exists j :: 0 <= j < |cs| && cs[j].name == d
      {
        DepsAt(cs, i);
        var j := PositionOf(cs, d);
      }
    }
    if forall i, d | 0 <= i < |cs| && d in cs[i].dependsOn :: exists j :: 0 <= j < |cs| && cs[j].name == d {
      forall c, d | c in g && d in g[c]
        ensures d in g
      {
        var i := PositionOf(cs, c);
        var j :| 0 <= j < |cs| && cs[j].name == d;
        DepsAt(cs, j);
      }
    }
  }

  lemma AcyclicIff(cs: seq<Component>)
    requires UniqueNames(cs)
    ensures Acyclic(DepsOf(cs)) <==> forall at | Chain(cs, at) && |at| >= 2 :: at[0] != at[|at| - 1]
  {
    if w :| IsCycle(DepsOf(cs), w) {
      var at := WalkIsChain(cs, w);
      assert cs[at[0]].name == cs[at[|at| - 1]].name;
      assert Chain(cs, at) && |at| >= 2 && at[0] == at[|at| - 1];
    } else {
      forall at | Chain(cs, at) && |at| >= 2
        ensures at[0] != at[|at| - 1]
      {
        ChainIsWalk(cs, at);
        assert !IsCycle(DepsOf(cs), Names(cs, at));
      }
    }
  }

  // ------------------------------------------------------------ where a write may happen

  /** A scale-up that changes an object has recorded the write under the name of a component with that object. */
  lemma {:induction false} ChangesAreRaised(
    ns: string, cs: seq<Component>, faults: seq<Fault>, i: nat, o: Objects, key: ResourceKey)
    requires i <= |cs| && key in o
    requires var after := ScaleUpAll(ns, cs, faults, i, o).objects; key in after && after[key] != o[key]
    ensures exists j ::
              i <= j < |cs| && KeyOf(ns, cs[j]) == key && cs[j].name in ScaleUpAll(ns, cs, faults, i, o).raised
    decreases |cs| - i
  {
    var first := ScaleUpOne(ns, cs[i], FaultAt(faults, i), o);
    if first.err.None? {
      if first.objects[key] != o[key] {
        assert KeyOf(ns, cs[i]) == key && cs[i].name in ScaleUpAll(ns, cs, faults, i, o).raised;
      } else {
        ChangesAreRaised(ns, cs, faults, i + 1, first.objects, key);
      }
    }
  }

  /** Sleeping objects stay as they are in a scale-down. */
  lemma {:induction false} ScaleDownKeepsOthers(
    ns: string, cs: seq<Component>, faults: seq<Fault>, i: nat, o: Objects, key: ResourceKey)
    requires i <= |cs| && key in o && !NeedsScaleDown(key.kind, o[key].scale)
    ensures var after := ScaleDownAll(ns, cs, faults, i, o).objects; key in after && after[key] == o[key]
    decreases |cs| - i
  {
    if i < |cs| {
      var first := ScaleDownOne(ns, cs[i], FaultAt(faults, i), o);
      if first.err.None? {
        ScaleDownKeepsOthers(ns, cs, faults, i + 1, first.objects, key);
      }
    }
  }

  /** An object that a reconcile changes although a scale-down would not. */
  lemma ChangeIsScaleUp(
    ns: string, cs: seq<Component>, levels: Levels, faults: Faults, st: Status, o: Objects, key: ResourceKey)
    requires LevelsOf(cs, levels) && key in o && !NeedsScaleDown(key.kind, o[key].scale)
    requires var after := Reconcile(ns, cs, levels, faults, st, o).objects; key in after && after[key] != o[key]
    ensures ValidSpec(cs)
    ensures var statuses := Observe(ns, cs, faults.unreadable, o);
            Reconcile(ns, cs, levels, faults, st, o).objects ==
            ScaleUpAll(ns, Chosen(cs, levels, statuses), faults.scaling, 0, o).objects
  {
    ScaleDownKeepsOthers(ns, cs, faults.scaling, 0, o, key);
  }

  /**
   Dependency safety on the fields.  When a reconcile, under any faults, changes a workload without a count or at
   zero, or a hibernated cluster, then it is the object of some component, and whatever that component depends on,
   directly or through others, is recorded as ready in the snapshot of this reconcile.
   */
  lemma OnlyRaisesOnReady(
    ns: string, cs: seq<Component>, levels: Levels, faults: Faults, st: Status, o: Objects, key: ResourceKey)
    returns (i: nat)
    requires LevelsOf(cs, levels) && key in o
    requires match key.kind
             case CNPGCluster =>
               && "cnpg.io/hibernation" in o[key].scale.annotations
               && o[key].scale.annotations["cnpg.io/hibernation"] == "on"
             case _ => o[key].scale.replicas == None || o[key].scale.replicas == Some(0)
    requires var after := Reconcile(ns, cs, levels, faults, st, o).objects; key in after && after[key] != o[key]
    ensures i < |cs| && ValidSpec(cs)
    ensures key ==
            ResourceKey(cs[i].kind, if cs[i].ref.namespace == "" then ns else cs[i].ref.namespace, cs[i].ref.name)
    ensures forall at | Chain(cs, at) && |at| >= 2 && at[0] == i ::
              Observe(ns, cs, faults.unreadable, o)[at[|at| - 1]].ready
  {
    var statuses := Observe(ns, cs, faults.unreadable, o);
    ChangeIsScaleUp(ns, cs, levels, faults, st, o, key);
    var chosen := Chosen(cs, levels, statuses);
    ChangesAreRaised(ns, chosen, faults.scaling, 0, o, key);
    var j :| 0 <= j < |chosen| && KeyOf(ns, chosen[j]) == key;
    ChosenIff(cs, levels, statuses, chosen[j]);
    var c := chosen[j];
    ByNameAt(cs, c.name);
    i :| 0 <= i < |cs| && cs[i] == c;
    forall at | Chain(cs, at) && |at| >= 2 && at[0] == i
      ensures statuses[at[|at| - 1]].ready
    {
      ChainEndsReady(ns, cs, levels, faults.unreadable, o, at);
    }
  }

  lemma ChainEndsReady(
    ns: string, cs: seq<Component>, levels: Levels, unreadable: set<nat>, o: Objects, at: seq<nat>)
    requires ValidSpec(cs) && IsLayering(DepsOf(cs), levels) && Chain(cs, at) && |at| >= 2
    requires cs[at[0]] in Chosen(cs, levels, Observe(ns, cs, unreadable, o))
    ensures Observe(ns, cs, unreadable, o)[at[|at| - 1]].ready
  {
    var statuses, g, w := Observe(ns, cs, unreadable, o), DepsOf(cs), Names(cs, at);
    var c, d, last := w[0], w[|w| - 1], at[|at| - 1];
    ChosenIff(cs, levels, statuses, cs[at[0]]);
    var k := CurrentLevel(levels, statuses);
    ChainIsWalk(cs, at);
    assert DependsTransitively(g, c, d);
    TransitiveDependenciesLieLower(g, levels, c, k, d);
    var l: nat :| l < k && InLevel(levels, d, l);
    var p :| 0 <= p < |levels[l]| && levels[l][p] == d;
    assert LevelReady(levels[l], statuses);
    ObservedByName(ns, cs, unreadable, o, last);
  }
}
