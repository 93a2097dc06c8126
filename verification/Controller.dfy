/**
 The reconciler as it runs: methods that update the fetched SleepyService and the cluster objects in place.
 Each is proved equal to the functions of `Scaling` and `Reconciling`.
 */
module Controller {
  import opened Types
  import opened Walks
  import opened Layering
  import opened Dependencies
  import opened Scaling
  import opened Reconciling
  import opened ClusterLaws

  /** The working copy of the custom resource that one reconcile fetches, edits and writes back. */
  class SleepyService {
    const namespace: string
    const components: seq<Component>
    var desiredState: ServiceState
    var state: ServiceState
    var statuses: seq<ComponentStatus>

    constructor (namespace: string, components: seq<Component>, st: Status)
      ensures this.namespace == namespace && this.components == components && Stored() == st
    {
      this.namespace, this.components := namespace, components;
      desiredState, state, statuses := st.desired, st.state, st.components;
    }

    function Stored(): Status
      reads this
    {
      Status(desiredState, state, statuses)
    }

    /** Looks the names up in a map built from the status list. */
    method AreComponentsReady(names: seq<string>) returns (ready: bool)
      ensures ready == LevelReady(names, statuses)
      ensures ready <==> forall n | n in names :: RecordedReady(statuses, n)
    {
      forall n
        ensures ReadyIn(statuses, n) <==> RecordedReady(statuses, n)
      {
        ReadyInIff(statuses, n);
      }
      var statusMap: map<string, ComponentStatus> := map[];
      for i := 0 to |statuses|
        invariant statusMap == StatusMap(statuses[..i])
      {
        assert statuses[..i + 1][..i] == statuses[..i];
        statusMap := statusMap[statuses[i].name := statuses[i]];
      }
      assert statuses[..|statuses|] == statuses;
      for i := 0 to |names|
        invariant forall j | 0 <= j < i :: ReadyIn(statuses, names[j])
      {
        if names[i] !in statusMap || !statusMap[names[i]].ready {
          assert !ReadyIn(statuses, names[i]) && names[i] in names;
          return false;
        }
      }
      return true;
    }

    /** The highest level whose predecessors are all ready; -1 without levels. */
    method PickLevel(levels: Levels) returns (currentLevel: int)
      ensures currentLevel == CurrentLevel(levels, statuses)
    {
      currentLevel := -1;
      var i := 0;
      while i < |levels|
        invariant 0 <= i <= |levels| && currentLevel == i - 1
        invariant i > 0 ==> LeadingReady(levels, statuses, 0) == LeadingReady(levels, statuses, i - 1)
      {
        if i == 0 {
          currentLevel := 0;
        } else {
          var ready := AreComponentsReady(levels[i - 1]);
          if ready {
            currentLevel := i;
          } else {
            break;
          }
        }
        i := i + 1;
      }
    }
  }

  lemma AllReadySnoc(statuses: seq<ComponentStatus>, status: ComponentStatus)
    ensures AllReady(statuses + [status]) <==> AllReady(statuses) && status.ready
  {
    assert (statuses + [status])[|statuses|] == status;
    assert forall i | 0 <= i < |statuses| :: (statuses + [status])[i] == statuses[i];
  }

  lemma LevelsExist(cs: seq<Component>) returns (levels: Levels)
    ensures LevelsOf(cs, levels)
  {
    if ValidSpec(cs) {
      levels := LayeringExists(DepsOf(cs));
    } else {
      levels := [];
    }
  }

  /** What remains of a scaling pass at its `i`-th component, given what was raised before. */
  ghost predicate ScalingUp(
    ns: string, cs: seq<Component>, faults: seq<Fault>, i: nat, total: Outcome, before: seq<string>, o: Objects)
    requires i <= |cs|
  {
    var rest := ScaleUpAll(ns, cs, faults, i, o);
    total == Outcome(rest.objects, before + rest.raised, rest.err)
  }

  lemma ScalingUpStep(
    ns: string, cs: seq<Component>, faults: seq<Fault>, i: nat, total: Outcome, before: seq<string>, o: Objects)
    requires i < |cs| && ScalingUp(ns, cs, faults, i, total, before, o)
    ensures var one := ScaleUpOne(ns, cs[i], FaultAt(faults, i), o);
            if one.err.Some? then total == Outcome(one.objects, before + one.raised, one.err)
            else ScalingUp(ns, cs, faults, i + 1, total, before + one.raised, one.objects)
  {
    var one := ScaleUpOne(ns, cs[i], FaultAt(faults, i), o);
    if one.err.None? {
      var rest := ScaleUpAll(ns, cs, faults, i + 1, one.objects);
      assert before + (one.raised + rest.raised) == before + one.raised + rest.raised;
    }
  }

  class SleepyServiceReconciler {
    // The API server's copies.
    var objects: Objects
    var stored: Status
    // Names of the components for which a scale-up has been written, in order.
    ghost var raised: seq<string>

    constructor (objects: Objects, stored: Status)
      ensures this.objects == objects && this.stored == stored && raised == []
    {
      this.objects, this.stored, raised := objects, stored, [];
    }

    method Get(key: ResourceKey, fault: Fault) returns (r: Option<Resource>)
      ensures r == if fault == GetFails || key !in objects then None else Some(objects[key])
    {
      if fault == GetFails || key !in objects {
        return None;
      }
      return Some(objects[key]);
    }

    method Update(key: ResourceKey, scale: Scale, fault: Fault) returns (ok: bool)
      requires key in objects
      modifies this`objects
      ensures ok == (fault != UpdateFails)
      ensures objects == if ok then Rescaled(old(objects), key, scale) else old(objects)
    {
      ok := fault != UpdateFails;
      if ok {
        objects := objects[key := objects[key].(scale := scale)];
      }
    }

    /** `scaleUpDeployment` and `scaleUpStatefulSet`. */
    method ScaleUpWorkload(ns: string, comp: Component, fault: Fault) returns (err: Option<ScaleError>)
      requires !comp.kind.CNPGCluster?
      modifies this`objects, this`raised
      ensures var r := ScaleUpOne(ns, comp, fault, old(objects));
              objects == r.objects && err == r.err && raised == old(raised) + r.raised
      ensures var key :=
                ResourceKey(comp.kind, if comp.ref.namespace == "" then ns else comp.ref.namespace, comp.ref.name);
              err.None? ==>
                && key in old(objects)
                && objects ==
                   if old(objects)[key].scale.replicas == None || old(objects)[key].scale.replicas == Some(0)
                   then old(objects)[key := Resource(
                                              Scale(if comp.replicas.Some? then comp.replicas else Some(1),
                                                    old(objects)[key].scale.annotations),
                                              old(objects)[key].health)]
                   else old(objects)
    {
      if ScaleUpOne(ns, comp, fault, objects).err.None? {
        RaiseOnFields(ns, comp, fault, objects);
      }
      var replicas := 1;
      if comp.replicas.Some? {
        replicas := comp.replicas.value;
      }
      var key := KeyOf(ns, comp);
      var got := Get(key, fault);
      if got.None? {
        return Some(NotRead(key));
      }
      var scale := got.value.scale;
      if scale.replicas.None? || scale.replicas.value == 0 {
        var ok := Update(key, scale.(replicas := Some(replicas)), fault);
        if !ok {
          return Some(NotWritten(key));
        }
        raised := raised + [comp.name];
      }
      return None;
    }

    method ScaleUpCNPGCluster(ns: string, comp: Component, fault: Fault) returns (err: Option<ScaleError>)
      requires comp.kind.CNPGCluster?
      modifies this`objects, this`raised
      ensures var r := ScaleUpOne(ns, comp, fault, old(objects));
              objects == r.objects && err == r.err && raised == old(raised) + r.raised
      ensures var key :=
                ResourceKey(comp.kind, if comp.ref.namespace == "" then ns else comp.ref.namespace, comp.ref.name);
              err.None? ==>
                && key in old(objects)
                && objects ==
                   if "cnpg.io/hibernation" in old(objects)[key].scale.annotations
                      && old(objects)[key].scale.annotations["cnpg.io/hibernation"] == "on"
                   then old(objects)[key := Resource(
                                              Scale(old(objects)[key].scale.replicas,
                                                    old(objects)[key].scale.annotations - {"cnpg.io/hibernation"}),
                                              old(objects)[key].health)]
                   else old(objects)
    {
      if ScaleUpOne(ns, comp, fault, objects).err.None? {
        RaiseOnFields(ns, comp, fault, objects);
      }
      var key := KeyOf(ns, comp);
      var got := Get(key, fault);
      if got.None? {
        return Some(NotRead(key));
      }
      var annotations := got.value.scale.annotations;
      if HIBERNATION in annotations && annotations[HIBERNATION] == "on" {
        annotations := annotations - {HIBERNATION};
        var ok := Update(key, got.value.scale.(annotations := annotations), fault);
        if !ok {
          return Some(NotWritten(key));
        }
        raised := raised + [comp.name];
      }
      return None;
    }

    /** `scaleDownDeployment` and `scaleDownStatefulSet`. */
    method ScaleDownWorkload(ns: string, comp: Component, fault: Fault) returns (err: Option<ScaleError>)
      requires !comp.kind.CNPGCluster?
      modifies this`objects
      ensures var r := ScaleDownOne(ns, comp, fault, old(objects)); objects == r.objects && err == r.err
      ensures var key :=
                ResourceKey(comp.kind, if comp.ref.namespace == "" then ns else comp.ref.namespace, comp.ref.name);
              err.None? ==>
                && key in old(objects)
                && objects ==
                   match old(objects)[key].scale.replicas
                   case Some(n) =>
                     if n > 0
                     then old(objects)[key := Resource(Scale(Some(0), old(objects)[key].scale.annotations),
                                                       old(objects)[key].health)]
                     else old(objects)
                   case None => old(objects)
    {
      if ScaleDownOne(ns, comp, fault, objects).err.None? {
        LowerOnFields(ns, comp, fault, objects);
      }
      var key := KeyOf(ns, comp);
      var got := Get(key, fault);
      if got.None? {
        return Some(NotRead(key));
      }
      var scale := got.value.scale;
      if scale.replicas.Some? && scale.replicas.value > 0 {
        var ok := Update(key, scale.(replicas := Some(0)), fault);
        if !ok {
          return Some(NotWritten(key));
        }
      }
      return None;
    }

    method ScaleDownCNPGCluster(ns: string, comp: Component, fault: Fault) returns (err: Option<ScaleError>)
      requires comp.kind.CNPGCluster?
      modifies this`objects
      ensures var r := ScaleDownOne(ns, comp, fault, old(objects)); objects == r.objects && err == r.err
      ensures var key :=
                ResourceKey(comp.kind, if comp.ref.namespace == "" then ns else comp.ref.namespace, comp.ref.name);
              err.None? ==>
                && key in old(objects)
                && objects ==
                   if "cnpg.io/hibernation" in old(objects)[key].scale.annotations
                      && old(objects)[key].scale.annotations["cnpg.io/hibernation"] == "on"
                   then old(objects)
                   else old(objects)[key := Resource(
                                              Scale(old(objects)[key].scale.replicas,
                                                    old(objects)[key].scale.annotations["cnpg.io/hibernation" := "on"]),
                                              old(objects)[key].health)]
    {
      if ScaleDownOne(ns, comp, fault, objects).err.None? {
        LowerOnFields(ns, comp, fault, objects);
      }
      var key := KeyOf(ns, comp);
      var got := Get(key, fault);
      if got.None? {
        return Some(NotRead(key));
      }
      var annotations := got.value.scale.annotations;
      if HIBERNATION !in annotations || annotations[HIBERNATION] != "on" {
        annotations := annotations[HIBERNATION := "on"];
        var ok := Update(key, got.value.scale.(annotations := annotations), fault);
        if !ok {
          return Some(NotWritten(key));
        }
      }
      return None;
    }

    method ScaleUpComponent(ns: string, comp: Component, fault: Fault) returns (err: Option<ScaleError>)
      modifies this`objects, this`raised
      ensures var r := ScaleUpOne(ns, comp, fault, old(objects));
              objects == r.objects && err == r.err && raised == old(raised) + r.raised
    {
      match comp.kind {
        case Deployment => err := ScaleUpWorkload(ns, comp, fault);
        case StatefulSet => err := ScaleUpWorkload(ns, comp, fault);
        case CNPGCluster => err := ScaleUpCNPGCluster(ns, comp, fault);
      }
    }

    /** The loop of `scaleUpComponents` over one level, whose names `byName` resolves to `chosen`. */
    method ScaleLevel(ns: string, names: seq<string>, byName: map<string, Component>, faults: seq<Fault>,
                      ghost chosen: seq<Component>)
      returns (err: Option<ScaleError>)
      requires |chosen| == |names| && forall i | 0 <= i < |names| :: names[i] in byName && byName[names[i]] == chosen[i]
      modifies this`objects, this`raised
      ensures var r := ScaleUpAll(ns, chosen, faults, 0, old(objects));
              objects == r.objects && err == r.err && raised == old(raised) + r.raised
    {
      ghost var total := ScaleUpAll(ns, chosen, faults, 0, objects);
      ghost var before: seq<string> := [];
      for i := 0 to |names|
        invariant ScalingUp(ns, chosen, faults, i, total, before, objects)
        invariant raised == old(raised) + before
      {
        var comp := byName[names[i]];
        ScalingUpStep(ns, chosen, faults, i, total, before, objects);
        before := before + ScaleUpOne(ns, comp, FaultAt(faults, i), objects).raised;
        err := ScaleUpComponent(ns, comp, FaultAt(faults, i));
        if err.Some? {
          return;
        }
      }
      err := None;
    }

    method ScaleUpComponents(hs: SleepyService, faults: seq<Fault>)
      returns (err: Option<ScaleError>, ghost levels: Levels)
      modifies this`objects, this`raised
      ensures LevelsOf(hs.components, levels)
      ensures var r := ScaleUp(hs.namespace, hs.components, levels, hs.statuses, faults, old(objects));
              objects == r.objects && err == r.err && raised == old(raised) + r.raised
    {
      var graph, graphErr := BuildDependencyGraph(hs.components);
      if graph == null {
        levels := [];
        return Some(BadGraph), levels;
      }
      var computed := graph.ComputeScalingLevels();
      levels := computed;
      var currentLevel := hs.PickLevel(computed);
      if currentLevel == -1 {
        return None, levels;
      }
      LevelNamesExist(hs.components, computed, currentLevel);
      ghost var chosen := Chosen(hs.components, computed, hs.statuses);
      err := ScaleLevel(hs.namespace, computed[currentLevel], graph.componentsByName, faults, chosen);
    }

    method ScaleDownComponents(hs: SleepyService, faults: seq<Fault>) returns (err: Option<ScaleError>)
      modifies this`objects
      ensures var r := ScaleDownAll(hs.namespace, hs.components, faults, 0, old(objects));
              objects == r.objects && err == r.err
    {
      for i := 0 to |hs.components|
        invariant ScaleDownAll(hs.namespace, hs.components, faults, i, objects)
               == ScaleDownAll(hs.namespace, hs.components, faults, 0, old(objects))
      {
        var comp := hs.components[i];
        match comp.kind {
          case Deployment => err := ScaleDownWorkload(hs.namespace, comp, FaultAt(faults, i));
          case StatefulSet => err := ScaleDownWorkload(hs.namespace, comp, FaultAt(faults, i));
          case CNPGCluster => err := ScaleDownCNPGCluster(hs.namespace, comp, FaultAt(faults, i));
        }
        if err.Some? {
          return;
        }
      }
      err := None;
    }

    /** `checkDeploymentReady` and `checkStatefulSetReady`; an unreadable object reads as not ready. */
    method CheckWorkloadReady(key: ResourceKey, unreadable: bool) returns (ready: bool)
      requires !key.kind.CNPGCluster?
      ensures ready == (!unreadable && key in objects && IsReady(key.kind, objects[key]))
      ensures ready <==>
              && !unreadable && key in objects
              && match objects[key].scale.replicas
                 case Some(n) => n != 0 && objects[key].health.readyReplicas >= n
                 case None => objects[key].health.readyReplicas >= 1
    {
      if unreadable || key !in objects {
        return false;
      }
      var desired := 1;
      if objects[key].scale.replicas.Some? {
        desired := objects[key].scale.replicas.value;
      }
      if desired == 0 {
        return false;
      }
      return objects[key].health.readyReplicas >= desired;
    }

    method CheckCNPGReady(key: ResourceKey, unreadable: bool) returns (ready: bool)
      requires key.kind.CNPGCluster?
      ensures ready == (!unreadable && key in objects && IsReady(key.kind, objects[key]))
      ensures ready <==>
              && !unreadable && key in objects
              && !("cnpg.io/hibernation" in objects[key].scale.annotations
                   && objects[key].scale.annotations["cnpg.io/hibernation"] == "on")
              && objects[key].health.cnpg.Some?
              && objects[key].health.cnpg.value.phase == "Cluster in healthy state"
              && objects[key].health.cnpg.value.readyInstances > 0
    {
      if unreadable || key !in objects {
        return false;
      }
      var annotations := objects[key].scale.annotations;
      if HIBERNATION in annotations && annotations[HIBERNATION] == "on" {
        return false;
      }
      var status := objects[key].health.cnpg;
      if status.None? {
        return false;
      }
      return status.value.phase == HEALTHY && status.value.readyInstances > 0;
    }

    method UpdateComponentStatuses(hs: SleepyService, unreadable: set<nat>)
      modifies hs
      ensures hs.Stored() == Observed(old(hs.Stored()), Observe(hs.namespace, hs.components, unreadable, objects))
      ensures hs.desiredState == old(hs.desiredState)
      ensures hs.statuses == Observe(hs.namespace, hs.components, unreadable, objects)
      ensures hs.state ==
              if forall i | 0 <= i < |hs.statuses| :: hs.statuses[i].ready then Awake
              else if old(hs.state) == Awake then Sleeping
              else old(hs.state)
    {
      var statuses: seq<ComponentStatus> := [];
      var allReady := true;
      for i := 0 to |hs.components|
        invariant statuses == Observe(hs.namespace, hs.components, unreadable, objects)[..i]
        invariant allReady == AllReady(statuses)
        invariant hs.Stored() == old(hs.Stored())
      {
        var comp := hs.components[i];
        var ready: bool;
        match comp.kind {
          case Deployment => ready := CheckWorkloadReady(KeyOf(hs.namespace, comp), i in unreadable);
          case StatefulSet => ready := CheckWorkloadReady(KeyOf(hs.namespace, comp), i in unreadable);
          case CNPGCluster => ready := CheckCNPGReady(KeyOf(hs.namespace, comp), i in unreadable);
        }
        var status := ComponentStatus(comp.name, ready);
        if !status.ready {
          allReady := false;
        }
        AllReadySnoc(statuses, status);
        statuses := statuses + [status];
      }
      hs.statuses := statuses;
      if allReady {
        if hs.state != Awake {
          hs.state := Awake;
        }
      } else {
        if hs.state == Awake {
          hs.state := Sleeping;
        }
      }
    }

    method ReconcileState(hs: SleepyService, faults: seq<Fault>) returns (err: Option<ScaleError>, ghost levels: Levels)
      modifies this`objects, this`raised, hs
      ensures LevelsOf(hs.components, levels)
      ensures var d := Decide(hs.namespace, hs.components, levels, faults, old(hs.Stored()), old(objects));
              && objects == d.outcome.objects && err == d.outcome.err && raised == old(raised) + d.outcome.raised
              && hs.Stored() == d.status
    {
      levels := LevelsExist(hs.components);
      var desiredState, currentState := hs.desiredState, hs.state;
      if desiredState == Unset {
        desiredState := Sleeping;
      }
      if currentState == Unset {
        hs.state := Sleeping;
        currentState := Sleeping;
      }
      err := None;
      if desiredState == Awake && currentState != Awake && currentState != Waking {
        err, levels := ScaleUpComponents(hs, faults);
        if err.None? {
          hs.state := Waking;
        }
      } else if currentState == Waking {
        err, levels := ScaleUpComponents(hs, faults);
        if err.None? {
          var allReady := EveryComponentReady(hs.statuses);
          if allReady {
            hs.state := Awake;
          }
        }
      } else if desiredState == Sleeping && currentState == Awake {
        err := ScaleDownComponents(hs, faults);
        if err.None? {
          hs.state := Sleeping;
        }
      }
    }

    /** One reconcile of an existing, undeleted resource whose proxy objects are in place. */
    method Reconcile(namespace: string, components: seq<Component>, faults: Faults)
      returns (requeue: Requeue, ghost levels: Levels)
      modifies this
      ensures LevelsOf(components, levels)
      ensures var r := Reconciling.Reconcile(namespace, components, levels, faults, old(stored), old(objects));
              && objects == r.objects && stored == r.status && requeue == r.requeue
              && raised == old(raised) + r.raised
    {
      var hs := new SleepyService(namespace, components, stored);
      UpdateComponentStatuses(hs, faults.unreadable);
      var err;
      err, levels := ReconcileState(hs, faults.scaling);
      if err.Some? || faults.statusConflict {
        return Failed, levels;
      }
      stored := hs.Stored();
      return if hs.state == Waking then Soon else Later, levels;
    }
  }

  method EveryComponentReady(statuses: seq<ComponentStatus>) returns (allReady: bool)
    ensures allReady == AllReady(statuses)
  {
    for i := 0 to |statuses|
      invariant forall j | 0 <= j < i :: statuses[j].ready
    {
      if !statuses[i].ready {
        return false;
      }
    }
    return true;
  }
}
