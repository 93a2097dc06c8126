/**
 One reconcile as a function of what it reads.  The level order inside the dependency layering is a
 parameter, since the implementation takes it from map iteration; so are the API faults.
 */
module Reconciling {
  import opened Types
  import opened Walks
  import opened Layering
  import opened Dependencies
  import opened Scaling

  type Levels = seq<seq<string>>

  /** API faults of one reconcile: unreadable components, scaling calls, and the status write. */
  datatype Faults = Faults(unreadable: set<nat>, scaling: seq<Fault>, statusConflict: bool)

  const NO_FAULTS := Faults({}, [], false)

  // ------------------------------------------------------------ observing

  predicate ObservedReady(ns: string, c: Component, i: nat, unreadable: set<nat>, o: Objects) {
    i !in unreadable && KeyOf(ns, c) in o && IsReady(c.kind, o[KeyOf(ns, c)])
  }

  function Observe(ns: string, cs: seq<Component>, unreadable: set<nat>, o: Objects): seq<ComponentStatus> {
    seq(|cs|, i requires 0 <= i < |cs| => ComponentStatus(cs[i].name, ObservedReady(ns, cs[i], i, unreadable, o)))
  }

  /** The status after `updateComponentStatuses`. */
  function Observed(st: Status, statuses: seq<ComponentStatus>): Status {
    st.(components := statuses,
        state := if AllReady(statuses) then Awake else if st.state == Awake then Sleeping else st.state)
  }

  // ------------------------------------------------------------ choosing a level

  /** Later entries of the same name win, as in a map filled in a loop. */
  function StatusMap(statuses: seq<ComponentStatus>): map<string, ComponentStatus> {
    if statuses == [] then map[] else
    var last := statuses[|statuses| - 1];
    StatusMap(statuses[..|statuses| - 1])[last.name := last]
  }

  predicate ReadyIn(statuses: seq<ComponentStatus>, name: string) {
    name in StatusMap(statuses) && StatusMap(statuses)[name].ready
  }

  predicate LevelReady(names: seq<string>, statuses: seq<ComponentStatus>) {
    forall i | 0 <= i < |names| :: ReadyIn(statuses, names[i])
  }

  /** The first level from `i` on that is not fully ready. */
  function LeadingReady(levels: Levels, statuses: seq<ComponentStatus>, i: nat): (n: nat)
    requires i <= |levels|
    ensures i <= n <= |levels|
    ensures forall k | i <= k < n :: LevelReady(levels[k], statuses)
    ensures n < |levels| ==> !LevelReady(levels[n], statuses)
    decreases |levels| - i
  {
    if i < |levels| && LevelReady(levels[i], statuses) then LeadingReady(levels, statuses, i + 1) else i
  }

  /** The level to scale: the first one whose predecessors are all ready, at most the last one. */
  function CurrentLevel(levels: Levels, statuses: seq<ComponentStatus>): (k: int)
    ensures levels == [] <==> k == -1
    ensures levels != [] ==> 0 <= k < |levels|
    ensures forall j | 0 <= j < k :: LevelReady(levels[j], statuses)
    ensures 0 <= k < |levels| - 1 ==> !LevelReady(levels[k], statuses)
  {
    if levels == [] then -1 else
    var n := LeadingReady(levels, statuses, 0);
    if n == |levels| then n - 1 else n
  }

  // ------------------------------------------------------------ scaling

  /** Levels of the dependency graph in some map iteration order; arbitrary when there is no graph. */
  ghost predicate LevelsOf(cs: seq<Component>, levels: Levels) {
    ValidSpec(cs) ==> IsLayering(DepsOf(cs), levels)
  }

  ghost function Pick(cs: seq<Component>, names: seq<string>): (picked: seq<Component>)
    requires UniqueNames(cs) && forall n | n in names :: n in ByName(cs)
    ensures |picked| == |names| && forall i | 0 <= i < |names| :: picked[i] == ByName(cs)[names[i]]
  {
    if names == [] then [] else [ByName(cs)[names[0]]] + Pick(cs, names[1..])
  }

  lemma ByNameAt(cs: seq<Component>, n: string)
    requires UniqueNames(cs) && n in ByName(cs)
    ensures exists i :: 0 <= i < |cs| && cs[i] == ByName(cs)[n] && cs[i].name == n
  {
    var i :| 0 <= i < |cs| && cs[i].name == n;
    assert ByName(cs)[n] == cs[i];
  }

  lemma LevelNamesExist(cs: seq<Component>, levels: Levels, k: nat)
    requires ValidSpec(cs) && IsLayering(DepsOf(cs), levels) && k < |levels|
    ensures forall n | n in levels[k] :: n in ByName(cs)
  {
    forall n | n in levels[k]
      ensures n in ByName(cs)
    {
      assert HasDepth(DepsOf(cs), n, k);
    }
  }

  /** The components to scale. */
  ghost function Chosen(cs: seq<Component>, levels: Levels, statuses: seq<ComponentStatus>): seq<Component>
    requires ValidSpec(cs) && IsLayering(DepsOf(cs), levels)
  {
    var k := CurrentLevel(levels, statuses);
    if k == -1 then [] else
      LevelNamesExist(cs, levels, k);
      Pick(cs, levels[k])
  }

  ghost function ScaleUp(
    ns: string, cs: seq<Component>, levels: Levels, statuses: seq<ComponentStatus>, faults: seq<Fault>, o: Objects)
    : Outcome
    requires LevelsOf(cs, levels)
  {
    if !ValidSpec(cs) then Outcome(o, [], Some(BadGraph))
    else ScaleUpAll(ns, Chosen(cs, levels, statuses), faults, 0, o)
  }

  // ------------------------------------------------------------ deciding

  datatype Decision = Decision(status: Status, outcome: Outcome)

  function Desired(st: Status): ServiceState {
    if st.desired == Unset then Sleeping else st.desired
  }

  function Current(st: Status): ServiceState {
    if st.state == Unset then Sleeping else st.state
  }

  /** `reconcileState`. */
  ghost function Decide(
    ns: string, cs: seq<Component>, levels: Levels, faults: seq<Fault>, st: Status, o: Objects): Decision
    requires LevelsOf(cs, levels)
  {
    var st1 := st.(state := Current(st));
    if Desired(st) == Awake && Current(st) != Awake && Current(st) != Waking then
      var r := ScaleUp(ns, cs, levels, st.components, faults, o);
      Decision(if r.err.Some? then st1 else st1.(state := Waking), r)
    else if Current(st) == Waking then
      var r := ScaleUp(ns, cs, levels, st.components, faults, o);
      Decision(if r.err.None? && AllReady(st.components) then st1.(state := Awake) else st1, r)
    else if Desired(st) == Sleeping && Current(st) == Awake then
      var r := ScaleDownAll(ns, cs, faults, 0, o);
      Decision(if r.err.Some? then st1 else st1.(state := Sleeping), r)
    else
      Decision(st1, Outcome(o, [], None))
  }

  datatype Requeue = Soon | Later | Failed

  /** What a reconcile leaves behind: the objects, the stored status, and when to come back. */
  datatype Step = Step(objects: Objects, status: Status, raised: seq<string>, requeue: Requeue)

  /** `Reconcile` from the status update on; a failed one leaves the stored status as it was. */
  ghost function Reconcile(ns: string, cs: seq<Component>, levels: Levels, faults: Faults, st: Status, o: Objects): Step
    requires LevelsOf(cs, levels)
  {
    var d := Decide(ns, cs, levels, faults.scaling, Observed(st, Observe(ns, cs, faults.unreadable, o)), o);
    var r := d.outcome;
    if r.err.Some? || faults.statusConflict then Step(r.objects, st, r.raised, Failed)
    else Step(r.objects, d.status, r.raised, if d.status.state == Waking then Soon else Later)
  }

  // ------------------------------------------------------------ lookups by name

  lemma {:induction false} StatusMapAt(statuses: seq<ComponentStatus>, i: nat)
    requires i < |statuses| && forall j, k | 0 <= j < k < |statuses| :: statuses[j].name != statuses[k].name
    ensures statuses[i].name in StatusMap(statuses) && StatusMap(statuses)[statuses[i].name] == statuses[i]
  {
    var n := |statuses| - 1;
    if i < n {
      StatusMapAt(statuses[..n], i);
      assert statuses[..n][i] == statuses[i];
    }
  }

  /** The last entry of this name says ready. */
  predicate RecordedReady(statuses: seq<ComponentStatus>, name: string) {
    exists i ::
      && 0 <= i < |statuses| && statuses[i].name == name && statuses[i].ready
      && forall j | i < j < |statuses| :: statuses[j].name != name
  }

  lemma {:induction false} ReadyInIff(statuses: seq<ComponentStatus>, name: string)
    ensures name in StatusMap(statuses) <==> exists i :: 0 <= i < |statuses| && statuses[i].name == name
    ensures ReadyIn(statuses, name) <==> RecordedReady(statuses, name)
  {
    if statuses != [] {
      var n := |statuses| - 1;
      var front := statuses[..n];
      ReadyInIff(front, name);
      assert forall i | 0 <= i < n :: front[i] == statuses[i];
    }
  }

  /** With distinct names, the snapshot is looked up by name exactly as it was taken by position. */
  lemma {:induction false} ObservedByName(ns: string, cs: seq<Component>, unreadable: set<nat>, o: Objects, i: nat)
    requires UniqueNames(cs) && i < |cs|
    ensures ReadyIn(Observe(ns, cs, unreadable, o), cs[i].name) <==> ObservedReady(ns, cs[i], i, unreadable, o)
  {
    StatusMapAt(Observe(ns, cs, unreadable, o), i);
  }
}
