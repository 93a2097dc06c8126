/**
 The dependency relation as a mathematical object: walks, cycles and the length of the
 longest dependency chain below a component.  Nothing here mentions an algorithm.
 */
module Walks {
  /** Every component name with the names it depends on, repetitions included. */
  type Deps = map<string, seq<string>>

  ghost predicate Closed(g: Deps) {
    forall c, d | c in g && d in g[c] :: d in g
  }

  /** A dependency chain: each element depends on the next one. */
  ghost predicate IsWalk(g: Deps, w: seq<string>) {
    && |w| > 0
    && (forall i | 0 <= i < |w| :: w[i] in g)
    && (forall i, j | 0 <= i < j < |w| && j == i + 1 :: w[j] in g[w[i]])
  }

  ghost predicate WalkFrom(g: Deps, c: string, w: seq<string>) {
    IsWalk(g, w) && w[0] == c
  }

  ghost predicate IsCycle(g: Deps, w: seq<string>) {
    IsWalk(g, w) && |w| >= 2 && w[0] == w[|w| - 1]
  }

  ghost predicate Acyclic(g: Deps) {
    forall w :: !IsCycle(g, w)
  }

  /** Some chain starting at `c` runs into a cycle. */
  ghost predicate ReachesCycle(g: Deps, c: string) {
    exists w, z :: WalkFrom(g, c, w) && IsCycle(g, z) && w[|w| - 1] == z[0]
  }

  /** The longest chain starting at `c` has exactly `k` edges. */
  ghost predicate HasDepth(g: Deps, c: string, k: nat) {
    && (exists w :: WalkFrom(g, c, w) && |w| == k + 1)
    && (forall w | WalkFrom(g, c, w) :: |w| <= k + 1)
  }

  /** `d` is a direct or indirect dependency of `c`. */
  ghost predicate DependsTransitively(g: Deps, c: string, d: string) {
    exists w :: WalkFrom(g, c, w) && |w| >= 2 && w[|w| - 1] == d
  }

  /** The components all of whose chains have fewer than `k` edges. */
  ghost function Below(g: Deps, k: nat): set<string> {
    if k == 0 then {} else set c | c in g && forall d | d in g[c] :: d in Below(g, k - 1)
  }

  ghost predicate Distinct(s: seq<string>) {
    forall i, j | 0 <= i < j < |s| :: s[i] != s[j]
  }

  // ---------------------------------------------------------------- walks

  lemma {:induction false} WalkTail(g: Deps, w: seq<string>)
    requires IsWalk(g, w) && |w| >= 2
    ensures WalkFrom(g, w[1], w[1..]) && w[1] in g[w[0]]
  {
    var t := w[1..];
    assert forall i | 0 <= i < |t| :: t[i] == w[i + 1];
  }

  lemma {:induction false} WalkCons(g: Deps, c: string, w: seq<string>)
    requires IsWalk(g, w) && c in g && w[0] in g[c]
    ensures WalkFrom(g, c, [c] + w)
  {
    var t := [c] + w;
    assert forall i | 0 <= i < |t| :: t[i] == if i == 0 then c else w[i - 1];
  }

  lemma {:induction false} WalkSlice(g: Deps, w: seq<string>, i: nat, j: nat)
    requires IsWalk(g, w) && i < j <= |w|
    ensures WalkFrom(g, w[i], w[i..j])
  {
    var t := w[i..j];
    assert forall n | 0 <= n < |t| :: t[n] == w[i + n];
  }

  lemma {:induction false} WalkSnoc(g: Deps, w: seq<string>, d: string)
    requires IsWalk(g, w) && d in g && d in g[w[|w| - 1]]
    ensures IsWalk(g, w + [d])
  {
  }

  // ---------------------------------------------------------------- Below

  lemma {:induction false} BelowStep(g: Deps, k: nat)
    ensures Below(g, k) <= Below(g, k + 1)
  {
    if k > 0 {
      BelowStep(g, k - 1);
    }
  }

  lemma {:induction false} BelowSaturates(g: Deps, n: nat, m: nat)
    requires Below(g, n + 1) == Below(g, n) && n <= m
    ensures Below(g, m) == Below(g, n)
  {
    if n < m {
      BelowSaturates(g, n, m - 1);
      assert Below(g, m) == Below(g, n + 1);
    }
  }

  lemma {:induction false} BelowBoundsWalks(g: Deps, k: nat, c: string, w: seq<string>)
    requires c in Below(g, k) && WalkFrom(g, c, w)
    ensures |w| <= k
    decreases k
  {
    if |w| >= 2 {
      WalkTail(g, w);
      BelowBoundsWalks(g, k - 1, w[1], w[1..]);
    }
  }

  lemma {:induction false} WalkAbove(g: Deps, k: nat, c: string) returns (w: seq<string>)
    requires Closed(g) && c in g && c !in Below(g, k)
    ensures WalkFrom(g, c, w) && |w| == k + 1
    decreases k
  {
    if k == 0 {
      w := [c];
    } else {
      var d :| d in g[c] && d !in Below(g, k - 1);
      var t := WalkAbove(g, k - 1, d);
      WalkCons(g, c, t);
      w := [c] + t;
    }
  }

  /** The two readings of "level k" agree: longest chain of k edges, and new at stage k + 1. */
  lemma {:induction false} DepthIsStage(g: Deps, c: string, k: nat)
    requires Closed(g)
    ensures HasDepth(g, c, k) <==> c in Below(g, k + 1) && c !in Below(g, k)
  {
    if HasDepth(g, c, k) {
      var w :| WalkFrom(g, c, w) && |w| == k + 1;
      if c in Below(g, k) {
        BelowBoundsWalks(g, k, c, w);
      }
      if c !in Below(g, k + 1) {
        var v := WalkAbove(g, k + 1, c);
      }
    }
    if c in Below(g, k + 1) && c !in Below(g, k) {
      var w := WalkAbove(g, k, c);
      forall v | WalkFrom(g, c, v)
        ensures |v| <= k + 1
      {
        BelowBoundsWalks(g, k + 1, c, v);
      }
    }
  }

  // ---------------------------------------------------------------- cycles

  lemma {:induction false} DistinctFits(w: seq<string>, s: set<string>)
    requires Distinct(w) && forall i | 0 <= i < |w| :: w[i] in s
    ensures |w| <= |s|
  {
    if w != [] {
      var t := w[1..];
      assert forall i | 0 <= i < |t| :: t[i] == w[i + 1];
      DistinctFits(t, s - {w[0]});
    }
  }

  lemma {:induction false} LongWalkReachesCycle(g: Deps, c: string, w: seq<string>)
    requires WalkFrom(g, c, w) && |w| > |g|
    ensures ReachesCycle(g, c)
  {
    if Distinct(w) {
      DistinctFits(w, g.Keys);
      assert false;
    }
    var i, j :| 0 <= i < j < |w| && w[i] == w[j];
    WalkSlice(g, w, 0, i + 1);
    WalkSlice(g, w, i, j + 1);
    var pre, loop := w[..i + 1], w[i..j + 1];
    assert w[0..i + 1] == pre;
    assert WalkFrom(g, c, pre) && IsCycle(g, loop) && pre[|pre| - 1] == loop[0];
  }

  lemma {:induction false} CycleReacherHasSuchDependency(g: Deps, c: string) returns (d: string)
    requires ReachesCycle(g, c)
    ensures c in g && d in g[c] && ReachesCycle(g, d)
  {
    var w, z :| WalkFrom(g, c, w) && IsCycle(g, z) && w[|w| - 1] == z[0];
    if |w| >= 2 {
      WalkTail(g, w);
      d := w[1];
      assert WalkFrom(g, d, w[1..]) && IsCycle(g, z) && w[1..][|w[1..]| - 1] == z[0];
    } else {
      WalkTail(g, z);
      d := z[1];
      assert WalkFrom(g, d, z[1..]) && IsCycle(g, z) && z[1..][|z[1..]| - 1] == z[0];
    }
  }

  lemma {:induction false} CycleReacherNeverBelow(g: Deps, c: string, k: nat)
    requires ReachesCycle(g, c)
    ensures c !in Below(g, k)
    decreases k
  {
    if k > 0 {
      var d := CycleReacherHasSuchDependency(g, c);
      CycleReacherNeverBelow(g, d, k - 1);
    }
  }

  /** Once the stages stop growing, what they miss is exactly what reaches a cycle. */
  lemma {:induction false} SaturationMissesCycleReachers(g: Deps, n: nat, c: string)
    requires Closed(g) && c in g && Below(g, n + 1) == Below(g, n)
    ensures c !in Below(g, n) <==> ReachesCycle(g, c)
  {
    if c !in Below(g, n) {
      var m := if n <= |g| then |g| else n;
      BelowSaturates(g, n, m);
      var w := WalkAbove(g, m, c);
      LongWalkReachesCycle(g, c, w);
    } else if ReachesCycle(g, c) {
      CycleReacherNeverBelow(g, c, n);
    }
  }

  lemma {:induction false} CyclicIffSomeoneReachesCycle(g: Deps)
    ensures Acyclic(g) <==> forall c | c in g :: !ReachesCycle(g, c)
  {
    if z :| IsCycle(g, z) {
      WalkSlice(g, z, 0, 1);
      assert WalkFrom(g, z[0], [z[0]]) && IsCycle(g, z) && [z[0]][|[z[0]]| - 1] == z[0];
      assert ReachesCycle(g, z[0]);
    }
  }

  /** `order` lists every component after all of its dependencies. */
  ghost predicate DependenciesFirst(g: Deps, order: seq<string>) {
    forall k | 0 <= k < |order| :: order[k] in g && forall d | d in g[order[k]] :: d in order[..k]
  }

  lemma {:induction false} DependenciesFirstSnoc(g: Deps, order: seq<string>, c: string)
    requires DependenciesFirst(g, order) && c in g && forall d | d in g[c] :: d in order
    ensures DependenciesFirst(g, order + [c])
  {
    var longer := order + [c];
    forall k | 0 <= k < |longer|
      ensures longer[k] in g && forall d | d in g[longer[k]] :: d in longer[..k]
    {
      assert longer[..k] == order[..k];
      assert order[..|order|] == order;
    }
  }

  /** Along a chain, the positions in such an order descend. */
  lemma {:induction false} OrderDescends(g: Deps, order: seq<string>, w: seq<string>, i: nat, n: nat)
    requires IsWalk(g, w) && DependenciesFirst(g, order) && n < |order| && i < |w| && w[i] == order[n]
    ensures exists m | 0 <= m <= n :: w[|w| - 1] == order[m] && (i < |w| - 1 ==> m < n)
    decreases |w| - i
  {
    if i < |w| - 1 {
      assert w[i + 1] in g[w[i]];
      assert w[i + 1] in order[..n];
      var m :| 0 <= m < n && order[m] == w[i + 1];
      OrderDescends(g, order, w, i + 1, m);
    }
  }

  lemma {:induction false} OrderImpliesAcyclic(g: Deps, order: seq<string>)
    requires Distinct(order) && DependenciesFirst(g, order) && forall c | c in g :: c in order
    ensures Acyclic(g)
  {
    forall w
      ensures !IsCycle(g, w)
    {
      if IsCycle(g, w) {
        var n :| 0 <= n < |order| && order[n] == w[0];
        OrderDescends(g, order, w, 0, n);
      }
    }
  }
}
