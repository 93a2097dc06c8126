/**
 The cluster as the controller sees it, and what one scaling call does to it.  An object has a
 scale, which only the controller writes, and a health, which only the rest of the cluster writes.
 */
module Scaling {
  import opened Types

  const HIBERNATION := "cnpg.io/hibernation"
  const HEALTHY := "Cluster in healthy state"

  datatype ResourceKey = ResourceKey(kind: ComponentType, namespace: string, name: string)

  /** `replicas` matters for workloads, `annotations` for CNPG clusters; an absent map is empty. */
  datatype Scale = Scale(replicas: Option<int>, annotations: map<string, string>)

  datatype CnpgStatus = CnpgStatus(phase: string, readyInstances: int)

  datatype Health = Health(readyReplicas: int, cnpg: Option<CnpgStatus>)

  datatype Resource = Resource(scale: Scale, health: Health)

  type Objects = map<ResourceKey, Resource>

  function KeyOf(ns: string, c: Component): ResourceKey {
    ResourceKey(c.kind, if c.ref.namespace == "" then ns else c.ref.namespace, c.ref.name)
  }

  predicate Hibernated(s: Scale) {
    HIBERNATION in s.annotations && s.annotations[HIBERNATION] == "on"
  }

  predicate IsOff(kind: ComponentType, s: Scale) {
    if kind.CNPGCluster? then Hibernated(s) else s.replicas == Some(0)
  }

  function DesiredReplicas(s: Scale): int {
    if s.replicas.Some? then s.replicas.value else 1
  }

  /** The three readiness checks. */
  predicate IsReady(kind: ComponentType, r: Resource) {
    if kind.CNPGCluster? then
      !Hibernated(r.scale) && r.health.cnpg.Some? &&
      r.health.cnpg.value.phase == HEALTHY && r.health.cnpg.value.readyInstances > 0
    else
      DesiredReplicas(r.scale) != 0 && r.health.readyReplicas >= DesiredReplicas(r.scale)
  }

  lemma OffIsNeverReady(kind: ComponentType, r: Resource)
    requires IsOff(kind, r.scale)
    ensures !IsReady(kind, r)
  {
  }

  function DeclaredReplicas(c: Component): int {
    if c.replicas.Some? then c.replicas.value else 1
  }

  /** A workload without a replica count counts as not scaled up. */
  predicate NeedsScaleUp(kind: ComponentType, s: Scale) {
    if kind.CNPGCluster? then Hibernated(s) else s.replicas.None? || s.replicas.value == 0
  }

  /** A workload without a replica count is left alone. */
  predicate NeedsScaleDown(kind: ComponentType, s: Scale) {
    if kind.CNPGCluster? then !Hibernated(s) else s.replicas.Some? && s.replicas.value > 0
  }

  function ScaledUp(c: Component, s: Scale): (r: Scale) {
    if !NeedsScaleUp(c.kind, s) then s
    else if c.kind.CNPGCluster? then s.(annotations := s.annotations - {HIBERNATION})
    else s.(replicas := Some(DeclaredReplicas(c)))
  }

  function ScaledDown(kind: ComponentType, s: Scale): (r: Scale) {
    if !NeedsScaleDown(kind, s) then s
    else if kind.CNPGCluster? then s.(annotations := s.annotations[HIBERNATION := "on"])
    else s.(replicas := Some(0))
  }

  // ------------------------------------------------------------ one API round trip

  /** What the API server does to one read-modify-write. */
  datatype Fault = NoFault | GetFails | UpdateFails

  function FaultAt(faults: seq<Fault>, i: nat): Fault {
    if i < |faults| then faults[i] else NoFault
  }

  datatype ScaleError = NotRead(key: ResourceKey) | NotWritten(key: ResourceKey) | BadGraph

  /** `raised` names the components for which a scale-up was written. */
  datatype Outcome = Outcome(objects: Objects, raised: seq<string>, err: Option<ScaleError>)

  function Rescaled(o: Objects, key: ResourceKey, s: Scale): Objects
    requires key in o
  {
    o[key := o[key].(scale := s)]
  }

  function ScaleUpOne(ns: string, c: Component, fault: Fault, o: Objects): Outcome {
    var key := KeyOf(ns, c);
    if fault == GetFails || key !in o then Outcome(o, [], Some(NotRead(key)))
    else if !NeedsScaleUp(c.kind, o[key].scale) then Outcome(o, [], None)
    else if fault == UpdateFails then Outcome(o, [], Some(NotWritten(key)))
    else Outcome(Rescaled(o, key, ScaledUp(c, o[key].scale)), [c.name], None)
  }

  /** Components from index `i` on, in order, up to the first error. */
  function ScaleUpAll(ns: string, cs: seq<Component>, faults: seq<Fault>, i: nat, o: Objects): (r: Outcome)
    requires i <= |cs|
    decreases |cs| - i
  {
    if i == |cs| then Outcome(o, [], None) else
    var first := ScaleUpOne(ns, cs[i], FaultAt(faults, i), o);
    if first.err.Some? then first else
    var rest := ScaleUpAll(ns, cs, faults, i + 1, first.objects);
    Outcome(rest.objects, first.raised + rest.raised, rest.err)
  }

  function ScaleDownOne(ns: string, c: Component, fault: Fault, o: Objects): Outcome {
    var key := KeyOf(ns, c);
    if fault == GetFails || key !in o then Outcome(o, [], Some(NotRead(key)))
    else if !NeedsScaleDown(c.kind, o[key].scale) then Outcome(o, [], None)
    else if fault == UpdateFails then Outcome(o, [], Some(NotWritten(key)))
    else Outcome(Rescaled(o, key, ScaledDown(c.kind, o[key].scale)), [], None)
  }

  function ScaleDownAll(ns: string, cs: seq<Component>, faults: seq<Fault>, i: nat, o: Objects): (r: Outcome)
    requires i <= |cs|
    ensures r.raised == []
    decreases |cs| - i
  {
    if i == |cs| then Outcome(o, [], None) else
    var first := ScaleDownOne(ns, cs[i], FaultAt(faults, i), o);
    if first.err.Some? then first else ScaleDownAll(ns, cs, faults, i + 1, first.objects)
  }

  // ------------------------------------------------------------ what scaling leaves alone

  /** Same objects with the same health; only scales may differ. */
  ghost predicate SameHealth(a: Objects, b: Objects) {
    a.Keys == b.Keys && forall k | k in a :: a[k].health == b[k].health
  }

  /** Same objects with the same scale; only health may differ. */
  ghost predicate SameScales(a: Objects, b: Objects) {
    a.Keys == b.Keys && forall k | k in a :: a[k].scale == b[k].scale
  }

  ghost predicate Present(ns: string, cs: seq<Component>, o: Objects) {
    forall i | 0 <= i < |cs| :: KeyOf(ns, cs[i]) in o
  }

  ghost predicate DistinctRefs(ns: string, cs: seq<Component>) {
    forall i, j | 0 <= i < j < |cs| :: KeyOf(ns, cs[i]) != KeyOf(ns, cs[j])
  }

  ghost predicate NamesKey(ns: string, cs: seq<Component>, i: nat, k: ResourceKey) {
    exists j :: i <= j < |cs| && KeyOf(ns, cs[j]) == k
  }

  predicate RaisedAt(ns: string, c: Component, before: Objects, after: Objects) {
    var k := KeyOf(ns, c);
    k in before && k in after && after[k].scale == ScaledUp(c, before[k].scale)
  }

  predicate LoweredAt(ns: string, c: Component, before: Objects, after: Objects) {
    var k := KeyOf(ns, c);
    k in before && k in after && after[k].scale == ScaledDown(c.kind, before[k].scale)
  }

  /** Under any faults, a scale-up writes only listed resources and never touches one that is on. */
  lemma {:induction false} ScaleUpIsConservative(ns: string, cs: seq<Component>, faults: seq<Fault>, i: nat, o: Objects)
    requires i <= |cs|
    ensures var r := ScaleUpAll(ns, cs, faults, i, o);
            && SameHealth(o, r.objects)
            && (forall k | k in o && !NamesKey(ns, cs, i, k) :: r.objects[k] == o[k])
            && (forall k | k in o && !NeedsScaleUp(k.kind, o[k].scale) :: r.objects[k] == o[k])
    decreases |cs| - i
  {
    if i < |cs| {
      var first := ScaleUpOne(ns, cs[i], FaultAt(faults, i), o);
      assert NamesKey(ns, cs, i, KeyOf(ns, cs[i]));
      if first.err.None? {
        ScaleUpIsConservative(ns, cs, faults, i + 1, first.objects);
        assert forall k | NamesKey(ns, cs, i + 1, k) :: NamesKey(ns, cs, i, k);
      }
    }
  }

  lemma {:induction false} ScaleDownIsConservative(
    ns: string, cs: seq<Component>, faults: seq<Fault>, i: nat, o: Objects)
    requires i <= |cs|
    ensures var r := ScaleDownAll(ns, cs, faults, i, o);
            && SameHealth(o, r.objects)
            && (forall k | k in o && !NamesKey(ns, cs, i, k) :: r.objects[k] == o[k])
    decreases |cs| - i
  {
    if i < |cs| {
      var first := ScaleDownOne(ns, cs[i], FaultAt(faults, i), o);
      assert NamesKey(ns, cs, i, KeyOf(ns, cs[i]));
      if first.err.None? {
        ScaleDownIsConservative(ns, cs, faults, i + 1, first.objects);
        assert forall k | NamesKey(ns, cs, i + 1, k) :: NamesKey(ns, cs, i, k);
      }
    }
  }

  lemma {:induction false} ScaleUpSucceeds(ns: string, cs: seq<Component>, i: nat, o: Objects)
    requires i <= |cs| && Present(ns, cs, o)
    ensures ScaleUpAll(ns, cs, [], i, o).err.None?
    decreases |cs| - i
  {
    if i < |cs| {
      ScaleUpSucceeds(ns, cs, i + 1, ScaleUpOne(ns, cs[i], NoFault, o).objects);
    }
  }

  lemma {:induction false} ScaleUpAt(ns: string, cs: seq<Component>, i: nat, j: nat, o: Objects)
    requires i <= j < |cs| && Present(ns, cs, o) && DistinctRefs(ns, cs)
    ensures RaisedAt(ns, cs[j], o, ScaleUpAll(ns, cs, [], i, o).objects)
    decreases |cs| - i
  {
    var first := ScaleUpOne(ns, cs[i], NoFault, o).objects;
    if i < j {
      ScaleUpAt(ns, cs, i + 1, j, first);
      assert KeyOf(ns, cs[i]) != KeyOf(ns, cs[j]);
    } else {
      assert !NamesKey(ns, cs, i + 1, KeyOf(ns, cs[i]));
      assert ScaleUpAll(ns, cs, [], i + 1, first).objects[KeyOf(ns, cs[i])] == first[KeyOf(ns, cs[i])] by {
        ScaleUpIsConservative(ns, cs, [], i + 1, first);
      }
    }
  }

  /**
   With distinct resources and no fault, a scale-up acts on each listed resource on its own: the order
   of the list does not matter, and everything else stays as it was.
   */
  lemma ScaleUpPointwise(ns: string, cs: seq<Component>, i: nat, o: Objects)
    requires i <= |cs| && Present(ns, cs, o) && DistinctRefs(ns, cs)
    ensures var r := ScaleUpAll(ns, cs, [], i, o);
            && r.err.None? && SameHealth(o, r.objects)
            && (forall j | i <= j < |cs| :: RaisedAt(ns, cs[j], o, r.objects))
            && (forall k | k in o && !NamesKey(ns, cs, i, k) :: r.objects[k] == o[k])
  {
    ScaleUpSucceeds(ns, cs, i, o);
    ScaleUpIsConservative(ns, cs, [], i, o);
    forall j | i <= j < |cs|
      ensures RaisedAt(ns, cs[j], o, ScaleUpAll(ns, cs, [], i, o).objects)
    {
      ScaleUpAt(ns, cs, i, j, o);
    }
  }

  lemma {:induction false} ScaleDownSucceeds(ns: string, cs: seq<Component>, i: nat, o: Objects)
    requires i <= |cs| && Present(ns, cs, o)
    ensures ScaleDownAll(ns, cs, [], i, o).err.None?
    decreases |cs| - i
  {
    if i < |cs| {
      ScaleDownSucceeds(ns, cs, i + 1, ScaleDownOne(ns, cs[i], NoFault, o).objects);
    }
  }

  lemma {:induction false} ScaleDownAt(ns: string, cs: seq<Component>, i: nat, j: nat, o: Objects)
    requires i <= j < |cs| && Present(ns, cs, o) && DistinctRefs(ns, cs)
    ensures LoweredAt(ns, cs[j], o, ScaleDownAll(ns, cs, [], i, o).objects)
    decreases |cs| - i
  {
    var first := ScaleDownOne(ns, cs[i], NoFault, o).objects;
    if i < j {
      ScaleDownAt(ns, cs, i + 1, j, first);
      assert KeyOf(ns, cs[i]) != KeyOf(ns, cs[j]);
    } else {
      assert !NamesKey(ns, cs, i + 1, KeyOf(ns, cs[i]));
      ScaleDownIsConservative(ns, cs, [], i + 1, first);
    }
  }

  lemma ScaleDownPointwise(ns: string, cs: seq<Component>, i: nat, o: Objects)
    requires i <= |cs| && Present(ns, cs, o) && DistinctRefs(ns, cs)
    ensures var r := ScaleDownAll(ns, cs, [], i, o);
            && r.err.None? && SameHealth(o, r.objects)
            && (forall j | i <= j < |cs| :: LoweredAt(ns, cs[j], o, r.objects))
            && (forall k | k in o && !NamesKey(ns, cs, i, k) :: r.objects[k] == o[k])
  {
    ScaleDownSucceeds(ns, cs, i, o);
    ScaleDownIsConservative(ns, cs, [], i, o);
    forall j | i <= j < |cs|
      ensures LoweredAt(ns, cs[j], o, ScaleDownAll(ns, cs, [], i, o).objects)
    {
      ScaleDownAt(ns, cs, i, j, o);
    }
  }

  // ------------------------------------------------------------ scaling up without distinct resources

  /** A workload declared with zero replicas can never become ready. */
  predicate CanWake(c: Component) {
    c.kind.CNPGCluster? || DeclaredReplicas(c) != 0
  }

  ghost predicate Wakeable(cs: seq<Component>) {
    forall i | 0 <= i < |cs| :: CanWake(cs[i])
  }

  /** A component that no scale-up turns off, or leaves off: declared above zero, or on with an explicit count. */
  predicate WakeableIn(ns: string, c: Component, o: Objects) {
    CanWake(c) || (KeyOf(ns, c) in o && !NeedsScaleUp(c.kind, o[KeyOf(ns, c)].scale))
  }

  ghost predicate AllWakeable(ns: string, cs: seq<Component>, o: Objects) {
    forall i | 0 <= i < |cs| :: WakeableIn(ns, cs[i], o)
  }

  lemma ScaleUpOneKeepsWakeable(ns: string, c: Component, o: Objects, cs: seq<Component>)
    requires KeyOf(ns, c) in o && AllWakeable(ns, cs, o)
    ensures AllWakeable(ns, cs, ScaleUpOne(ns, c, NoFault, o).objects)
  {
    forall i | 0 <= i < |cs|
      ensures WakeableIn(ns, cs[i], ScaleUpOne(ns, c, NoFault, o).objects)
    {
      assert WakeableIn(ns, cs[i], o);
    }
  }

  /** Even when components share resources, a faultless scale-up leaves every listed component on. */
  lemma {:induction false} ScaleUpTurnsOn(ns: string, cs: seq<Component>, i: nat, o: Objects)
    requires i <= |cs| && Present(ns, cs, o) && AllWakeable(ns, cs, o)
    ensures var r := ScaleUpAll(ns, cs, [], i, o);
            && r.err.None? && SameHealth(o, r.objects)
            && (forall j | i <= j < |cs| :: !IsOff(cs[j].kind, r.objects[KeyOf(ns, cs[j])].scale))
            && (forall k | k in o && !IsOff(k.kind, o[k].scale) :: !IsOff(k.kind, r.objects[k].scale))
    decreases |cs| - i
  {
    if i < |cs| {
      var first := ScaleUpOne(ns, cs[i], NoFault, o);
      ScaleUpOneKeepsWakeable(ns, cs[i], o, cs);
      assert WakeableIn(ns, cs[i], o);
      ScaleUpTurnsOn(ns, cs, i + 1, first.objects);
      assert !IsOff(cs[i].kind, first.objects[KeyOf(ns, cs[i])].scale);
    }
  }

  /** A component for which a further scale-up changes nothing. */
  predicate Settled(ns: string, c: Component, o: Objects) {
    KeyOf(ns, c) in o && ScaledUp(c, o[KeyOf(ns, c)].scale) == o[KeyOf(ns, c)].scale
  }

  lemma {:induction false} ScaleUpKeepsSettled(ns: string, cs: seq<Component>, i: nat, o: Objects, c: Component)
    requires i <= |cs| && Present(ns, cs, o) && Settled(ns, c, o)
    ensures Settled(ns, c, ScaleUpAll(ns, cs, [], i, o).objects)
    decreases |cs| - i
  {
    if i < |cs| {
      var first := ScaleUpOne(ns, cs[i], NoFault, o);
      assert Settled(ns, c, first.objects);
      ScaleUpKeepsSettled(ns, cs, i + 1, first.objects, c);
    }
  }

  lemma {:induction false} ScaleUpSettles(ns: string, cs: seq<Component>, i: nat, o: Objects)
    requires i <= |cs| && Present(ns, cs, o)
    ensures var r := ScaleUpAll(ns, cs, [], i, o);
            r.err.None? && r.objects.Keys == o.Keys && forall j | i <= j < |cs| :: Settled(ns, cs[j], r.objects)
    decreases |cs| - i
  {
    if i < |cs| {
      var first := ScaleUpOne(ns, cs[i], NoFault, o);
      ScaleUpSettles(ns, cs, i + 1, first.objects);
      ScaleUpKeepsSettled(ns, cs, i + 1, first.objects, cs[i]);
    }
  }

  lemma {:induction false} ScaleUpOfSettled(ns: string, cs: seq<Component>, i: nat, o: Objects)
    requires i <= |cs| && forall j | i <= j < |cs| :: Settled(ns, cs[j], o)
    ensures ScaleUpAll(ns, cs, [], i, o).objects == o
    decreases |cs| - i
  {
    if i < |cs| {
      assert ScaleUpOne(ns, cs[i], NoFault, o).objects == o;
      ScaleUpOfSettled(ns, cs, i + 1, o);
    }
  }

  /** Scaling up twice is scaling up once, in whatever order the second pass runs. */
  lemma {:induction false} ScaleUpIdempotent(ns: string, first: seq<Component>, second: seq<Component>, o: Objects)
    requires Present(ns, first, o) && forall c :: c in first <==> c in second
    ensures var once := ScaleUpAll(ns, first, [], 0, o).objects;
            ScaleUpAll(ns, second, [], 0, once).objects == once
  {
    ScaleUpSettles(ns, first, 0, o);
    var once := ScaleUpAll(ns, first, [], 0, o).objects;
    forall j | 0 <= j < |second|
      ensures Settled(ns, second[j], once)
    {
      assert second[j] in first;
    }
    ScaleUpOfSettled(ns, second, 0, once);
  }

  /** The recorded writes are writes to listed components, and without one nothing has changed. */
  lemma {:induction false} RaisedAreListed(ns: string, cs: seq<Component>, faults: seq<Fault>, i: nat, o: Objects)
    requires i <= |cs|
    ensures var r := ScaleUpAll(ns, cs, faults, i, o);
            && (forall n | n in r.raised :: exists j :: i <= j < |cs| && cs[j].name == n)
            && (r.raised == [] ==> r.objects == o)
    decreases |cs| - i
  {
    if i < |cs| {
      var first := ScaleUpOne(ns, cs[i], FaultAt(faults, i), o);
      if first.err.None? {
        RaisedAreListed(ns, cs, faults, i + 1, first.objects);
      }
    }
  }
}
