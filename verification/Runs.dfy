/** Whole runs of the controller against an environment: safety, closure and convergence. */
module Runs {
  import opened Types
  import opened Walks
  import opened Layering
  import opened Dependencies
  import opened Scaling
  import opened Reconciling
  import opened ReconcileLaws

  // ------------------------------------------------------------ arbitrary interference

  /** A scale-up write, with the snapshot of the reconcile that made it. */
  datatype Raise = Raise(name: string, snapshot: seq<ComponentStatus>)

  datatype World = World(objects: Objects, status: Status, history: seq<Raise>)

  /** `Outside` is anything that happens to the cluster objects, `Wish` a write of the desired state. */
  datatype Event =
    | Reconciled(levels: Levels, faults: Faults)
    | Outside(objects: Objects)
    | Wish(desired: ServiceState)

  ghost predicate Possible(cs: seq<Component>, e: Event) {
    e.Reconciled? ==> LevelsOf(cs, e.levels)
  }

  ghost predicate AllPossible(cs: seq<Component>, es: seq<Event>) {
    forall i | 0 <= i < |es| :: Possible(cs, es[i])
  }

  ghost function After(ns: string, cs: seq<Component>, w: World, e: Event): World
    requires Possible(cs, e)
  {
    match e
    case Reconciled(levels, faults) =>
      var r := Reconcile(ns, cs, levels, faults, w.status, w.objects);
      var snapshot := Observe(ns, cs, faults.unreadable, w.objects);
      var raises := seq(|r.raised|, i requires 0 <= i < |r.raised| => Raise(r.raised[i], snapshot));
      World(r.objects, r.status, w.history + raises)
    case Outside(objects) => w.(objects := objects)
    case Wish(desired) => w.(status := w.status.(desired := desired))
  }

  ghost function Run(ns: string, cs: seq<Component>, w: World, es: seq<Event>): World
    requires AllPossible(cs, es)
  {
    if es == [] then w else
    assert AllPossible(cs, es[..|es| - 1]) && Possible(cs, es[|es| - 1]);
    After(ns, cs, Run(ns, cs, w, es[..|es| - 1]), es[|es| - 1])
  }

  ghost predicate SafelyRaised(cs: seq<Component>, r: Raise) {
    UniqueNames(cs) ==> forall d | DependsTransitively(DepsOf(cs), r.name, d) :: ReadyIn(r.snapshot, d)
  }

  /**
   In every run, with readiness, scales and the desired state changing arbitrarily in between, each
   scale-up write sits on a snapshot in which all direct and indirect dependencies are ready.
   */
  lemma {:induction false} DependencySafety(ns: string, cs: seq<Component>, w: World, es: seq<Event>)
    requires AllPossible(cs, es) && w.history == []
    ensures forall r | r in Run(ns, cs, w, es).history :: SafelyRaised(cs, r)
  {
    if es != [] {
      var front, e := es[..|es| - 1], es[|es| - 1];
      assert AllPossible(cs, front) && Possible(cs, e);
      DependencySafety(ns, cs, w, front);
      var v := Run(ns, cs, w, front);
      forall r | r in Run(ns, cs, w, es).history
        ensures SafelyRaised(cs, r)
      {
        if r !in v.history {
          NewRaiseIsSafe(ns, cs, v, e, r);
        }
      }
    }
  }

  lemma NewRaiseIsSafe(ns: string, cs: seq<Component>, v: World, e: Event, r: Raise)
    requires Possible(cs, e) && r in After(ns, cs, v, e).history && r !in v.history
    ensures SafelyRaised(cs, r)
  {
    var step := Reconcile(ns, cs, e.levels, e.faults, v.status, v.objects);
    assert r.name in step.raised && r.snapshot == Observe(ns, cs, e.faults.unreadable, v.objects);
    if UniqueNames(cs) {
      forall d | DependsTransitively(DepsOf(cs), r.name, d)
        ensures ReadyIn(r.snapshot, d)
      {
        RaisedDependenciesReady(ns, cs, e.levels, e.faults, v.status, v.objects, r.name, d);
      }
    }
  }

  // ------------------------------------------------------------ staying asleep

  /** No event of this kind asks for a wake-up or writes a scale from outside. */
  ghost predicate Quiet(w: World, e: Event) {
    match e
    case Reconciled(_, _) => true
    case Outside(objects) => SameScales(w.objects, objects)
    case Wish(desired) => desired != Awake
  }

  ghost predicate AllQuiet(ns: string, cs: seq<Component>, w: World, es: seq<Event>)
    requires AllPossible(cs, es)
  {
    forall i | 0 <= i < |es| ::
      (assert AllPossible(cs, es[..i]); Quiet(Run(ns, cs, w, es[..i]), es[i]))
  }

  /** Not waking, not asked to wake, and component `i` off. */
  ghost predicate Resting(ns: string, cs: seq<Component>, w: World, i: nat) {
    && i < |cs| && OffIn(ns, cs[i], w.objects)
    && w.status.desired != Awake && w.status.state != Waking
  }

  lemma RestingStep(ns: string, cs: seq<Component>, w: World, e: Event, i: nat)
    requires Possible(cs, e) && Quiet(w, e) && Resting(ns, cs, w, i)
    ensures var v := After(ns, cs, w, e);
            && Resting(ns, cs, v, i) && SameScales(w.objects, v.objects)
            && (w.status.state == Sleeping ==> v.status.state == Sleeping)
  {
    if e.Reconciled? {
      var statuses := Observe(ns, cs, e.faults.unreadable, w.objects);
      assert !statuses[i].ready;
      CompositeStep(ns, cs, e.levels, e.faults, w.status, w.objects);
    }
  }

  /**
   Unless a wake-up is asked for, or is under way in the stored state, one component that is off keeps every scale
   where it is: a service that sleeps completely goes on sleeping, and a scale-down that stopped half way is not
   resumed.
   */
  lemma {:induction false} RestingIsClosed(ns: string, cs: seq<Component>, w: World, es: seq<Event>, i: nat)
    requires AllPossible(cs, es) && AllQuiet(ns, cs, w, es) && Resting(ns, cs, w, i)
    ensures var v := Run(ns, cs, w, es);
            && Resting(ns, cs, v, i) && SameScales(w.objects, v.objects)
            && (w.status.state == Sleeping ==> v.status.state == Sleeping)
  {
    if es != [] {
      var n := |es| - 1;
      var front, e := es[..n], es[n];
      assert AllPossible(cs, front) && Possible(cs, e);
      assert AllQuiet(ns, cs, w, front) by {
        forall j | 0 <= j < n
          ensures AllPossible(cs, front[..j]) && Quiet(Run(ns, cs, w, front[..j]), front[j])
        {
          assert front[..j] == es[..j] && front[j] == es[j];
        }
      }
      RestingIsClosed(ns, cs, w, front, i);
      assert Quiet(Run(ns, cs, w, front), e);
      RestingStep(ns, cs, Run(ns, cs, w, front), e, i);
    }
  }
}
