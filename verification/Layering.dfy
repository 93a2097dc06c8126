/**
 What it means to group components into scaling levels, and what follows from it.
 `IsLayering` pins the levels down up to the order inside a level, so every theorem below holds
 for whatever order the maps of the implementation are iterated in.
 */
module Layering {
  import opened Walks

  ghost predicate IsLayering(g: Deps, levels: seq<seq<string>>) {
    && (forall k | 0 <= k < |levels| :: levels[k] != [] && Distinct(levels[k]))
    && (forall k, c | 0 <= k < |levels| :: c in levels[k] <==> HasDepth(g, c, k))
    && (forall c, k: nat | HasDepth(g, c, k) :: k < |levels|)
  }

  ghost predicate InLevel(levels: seq<seq<string>>, c: string, k: nat) {
    k < |levels| && c in levels[k]
  }

  /** The components of stage `n`: those whose longest chain has `n` edges. */
  ghost function Stage(g: Deps, n: nat): set<string> {
    Below(g, n + 1) - Below(g, n)
  }

  /** `q` lists the elements of `s` once each, in some order. */
  ghost predicate Lists(q: seq<string>, s: set<string>) {
    multiset(q) == multiset(s)
  }

  lemma {:induction false} ListsOnce(q: seq<string>, s: set<string>)
    ensures Lists(q, s) <==> Distinct(q) && forall c :: c in q <==> c in s
  {
    if Lists(q, s) {
      ListsDistinct(q, s);
      forall c
        ensures c in q <==> c in s
      {
        assert c in q <==> c in multiset(q);
      }
    } else if Distinct(q) && forall c :: c in q <==> c in s {
      DistinctLists(q, s);
    }
  }

  lemma {:induction false} ListsDistinct(q: seq<string>, s: set<string>)
    requires Lists(q, s)
    ensures Distinct(q)
  {
    forall i, j | 0 <= i < j < |q|
      ensures q[i] != q[j]
    {
      var front, rest := q[..j], q[j + 1..];
      assert q == front + [q[j]] + rest;
      assert multiset(q) == multiset(front) + multiset{q[j]} + multiset(rest);
      assert multiset(q)[q[j]] <= 1;
      assert q[i] == front[i] && front[i] in multiset(front);
    }
  }

  lemma {:induction false} DistinctLists(q: seq<string>, s: set<string>)
    requires Distinct(q) && forall c :: c in q <==> c in s
    ensures Lists(q, s)
  {
    DistinctCounts(q);
    forall c
      ensures multiset(q)[c] == multiset(s)[c]
    {
      assert c in q <==> c in multiset(q);
    }
  }

  lemma {:induction false} DistinctCounts(q: seq<string>)
    requires Distinct(q)
    ensures forall c :: multiset(q)[c] <= 1
  {
    if q != [] {
      DistinctCounts(q[1..]);
      assert q == [q[0]] + q[1..];
      assert multiset(q) == multiset{q[0]} + multiset(q[1..]);
      assert q[0] !in q[1..];
      assert q[0] !in multiset(q[1..]);
    }
  }

  lemma {:induction false} ListsSome(q: seq<string>, s: set<string>)
    requires Lists(q, s) && q != []
    ensures s != {}
  {
    assert q[0] in multiset(q);
  }

  lemma {:induction false} NoStageSaturates(g: Deps, n: nat)
    requires Stage(g, n) == {}
    ensures Below(g, n + 1) == Below(g, n)
  {
    BelowStep(g, n);
    assert forall c | c in Below(g, n + 1) && c !in Below(g, n) :: c in Stage(g, n);
  }

  ghost predicate IsStage(g: Deps, level: seq<string>, k: nat) {
    level != [] && Lists(level, Stage(g, k))
  }

  /** A layering in terms of the stages that the level-by-level loop computes. */
  ghost predicate IsStaged(g: Deps, levels: seq<seq<string>>) {
    forall k | 0 <= k < |levels| :: IsStage(g, levels[k], k)
  }

  lemma {:induction false} BelowStaysFlat(g: Deps, n: nat, k: nat)
    requires Below(g, n + 1) == Below(g, n) && n <= k
    ensures Below(g, k + 1) == Below(g, k)
  {
    BelowSaturates(g, n, k);
    BelowSaturates(g, n, k + 1);
  }

  lemma {:induction false} StagedIsLayering(g: Deps, levels: seq<seq<string>>)
    requires Closed(g) && IsStaged(g, levels) && Below(g, |levels| + 1) == Below(g, |levels|)
    ensures IsLayering(g, levels)
  {
    forall k | 0 <= k < |levels|
      ensures levels[k] != [] && Distinct(levels[k]) && forall c :: c in levels[k] <==> HasDepth(g, c, k)
    {
      assert IsStage(g, levels[k], k);
      ListsOnce(levels[k], Stage(g, k));
      forall c
        ensures c in levels[k] <==> HasDepth(g, c, k)
      {
        DepthIsStage(g, c, k);
      }
    }
    forall c, k: nat | HasDepth(g, c, k)
      ensures k < |levels|
    {
      DepthIsStage(g, c, k);
      if |levels| <= k {
        BelowStaysFlat(g, |levels|, k);
      }
    }
  }

  lemma {:induction false} LayeringSaturates(g: Deps, levels: seq<seq<string>>)
    requires Closed(g) && IsLayering(g, levels)
    ensures Below(g, |levels| + 1) == Below(g, |levels|)
  {
    BelowStep(g, |levels|);
    forall c | c in Below(g, |levels| + 1)
      ensures c in Below(g, |levels|)
    {
      DepthIsStage(g, c, |levels|);
    }
  }

  lemma {:induction false} BelowIsUnionOfLevels(g: Deps, levels: seq<seq<string>>, n: nat, c: string)
    requires Closed(g) && IsLayering(g, levels) && n <= |levels|
    ensures c in Below(g, n) <==> exists k: nat :: k < n && InLevel(levels, c, k)
  {
    if n > 0 {
      BelowIsUnionOfLevels(g, levels, n - 1, c);
      BelowStep(g, n - 1);
      DepthIsStage(g, c, n - 1);
      if c in Below(g, n) && c !in Below(g, n - 1) {
        assert InLevel(levels, c, n - 1);
      }
      assert InLevel(levels, c, n - 1) <==> HasDepth(g, c, n - 1);
    }
  }

  /** A component that no level holds is exactly one from which a dependency cycle can be reached. */
  lemma {:induction false} OmittedIffReachesCycle(g: Deps, levels: seq<seq<string>>, c: string)
    requires Closed(g) && IsLayering(g, levels) && c in g
    ensures (forall k: nat :: !InLevel(levels, c, k)) <==> ReachesCycle(g, c)
  {
    LayeringSaturates(g, levels);
    SaturationMissesCycleReachers(g, |levels|, c);
    BelowIsUnionOfLevels(g, levels, |levels|, c);
  }

  /** The layering covers every component exactly when the depth-first search finds no cycle. */
  lemma {:induction false} LevelsCoverIffAcyclic(g: Deps, levels: seq<seq<string>>)
    requires Closed(g) && IsLayering(g, levels)
    ensures (forall c | c in g :: exists k: nat :: InLevel(levels, c, k)) <==> Acyclic(g)
  {
    CyclicIffSomeoneReachesCycle(g);
    forall c | c in g
      ensures (exists k: nat :: InLevel(levels, c, k)) <==> !ReachesCycle(g, c)
    {
      OmittedIffReachesCycle(g, levels, c);
    }
  }

  lemma {:induction false} LevelIsUnique(g: Deps, levels: seq<seq<string>>, c: string, j: nat, k: nat)
    requires IsLayering(g, levels) && InLevel(levels, c, j) && InLevel(levels, c, k)
    ensures j == k
  {
    assert HasDepth(g, c, j) && HasDepth(g, c, k);
    var v :| WalkFrom(g, c, v) && |v| == j + 1;
    var w :| WalkFrom(g, c, w) && |w| == k + 1;
  }

  /** On an accepted graph: each component in one level only, its index the longest chain below it. */
  lemma {:induction false} OneLevelEach(g: Deps, levels: seq<seq<string>>, c: string) returns (k: nat)
    requires Closed(g) && Acyclic(g) && IsLayering(g, levels) && c in g
    ensures InLevel(levels, c, k) && HasDepth(g, c, k)
    ensures forall j: nat | InLevel(levels, c, j) :: j == k
  {
    LevelsCoverIffAcyclic(g, levels);
    k :| InLevel(levels, c, k);
    forall j: nat | InLevel(levels, c, j)
      ensures j == k
    {
      LevelIsUnique(g, levels, c, j, k);
    }
  }

  /** Dependencies lie strictly lower, and above level 0 one of them lies exactly one level lower. */
  lemma {:induction false} DependenciesLieLower(g: Deps, levels: seq<seq<string>>, c: string, k: nat)
    requires Closed(g) && IsLayering(g, levels) && InLevel(levels, c, k)
    ensures c in g
    ensures forall d | d in g[c] :: exists j: nat :: j < k && InLevel(levels, d, j)
    ensures k > 0 ==> exists d :: d in g[c] && InLevel(levels, d, k - 1)
  {
    DepthIsStage(g, c, k);
    forall d | d in g[c]
      ensures exists j: nat :: j < k && InLevel(levels, d, j)
    {
      BelowIsUnionOfLevels(g, levels, k, d);
    }
    if k > 0 {
      var d :| d in g[c] && d !in Below(g, k - 1);
      DepthIsStage(g, d, k - 1);
      assert InLevel(levels, d, k - 1);
    }
  }

  lemma {:induction false} ChainDescends(g: Deps, levels: seq<seq<string>>, c: string, k: nat, w: seq<string>)
    requires Closed(g) && IsLayering(g, levels) && InLevel(levels, c, k) && WalkFrom(g, c, w) && |w| >= 2
    ensures var d := w[|w| - 1]; exists j: nat :: j < k && InLevel(levels, d, j)
    decreases |w|
  {
    DependenciesLieLower(g, levels, c, k);
    WalkTail(g, w);
    var j: nat :| j < k && InLevel(levels, w[1], j);
    if |w| > 2 {
      ChainDescends(g, levels, w[1], j, w[1..]);
      assert w[1..][|w[1..]| - 1] == w[|w| - 1];
    }
  }

  /** Indirect dependencies lie strictly lower as well. */
  lemma {:induction false} TransitiveDependenciesLieLower(
    g: Deps, levels: seq<seq<string>>, c: string, k: nat, d: string)
    requires Closed(g) && IsLayering(g, levels) && InLevel(levels, c, k) && DependsTransitively(g, c, d)
    ensures exists j: nat :: j < k && InLevel(levels, d, j)
  {
    var w :| WalkFrom(g, c, w) && |w| >= 2 && w[|w| - 1] == d;
    ChainDescends(g, levels, c, k, w);
  }

  lemma {:induction false} LayeringNoLonger(g: Deps, a: seq<seq<string>>, b: seq<seq<string>>)
    requires IsLayering(g, a) && IsLayering(g, b)
    ensures |b| <= |a|
  {
    if |a| < |b| {
      LevelHasDepth(g, b, b[|a|][0], |a|);
    }
  }

  lemma {:induction false} LevelHasDepth(g: Deps, levels: seq<seq<string>>, c: string, k: nat)
    requires IsLayering(g, levels) && InLevel(levels, c, k)
    ensures HasDepth(g, c, k)
  {
  }

  /** Two layerings differ at most in the order inside each level. */
  lemma {:induction false} LayeringIsUnique(g: Deps, a: seq<seq<string>>, b: seq<seq<string>>)
    requires IsLayering(g, a) && IsLayering(g, b)
    ensures |a| == |b|
    ensures forall k, c | 0 <= k < |a| :: c in a[k] <==> c in b[k]
  {
    LayeringNoLonger(g, a, b);
    LayeringNoLonger(g, b, a);
  }

  lemma {:induction false} SetAsSequence(s: set<string>) returns (q: seq<string>)
    ensures Lists(q, s)
  {
    if s == {} {
      q := [];
    } else {
      var c :| c in s;
      var r := SetAsSequence(s - {c});
      q := [c] + r;
      assert multiset(s) == multiset{c} + multiset(s - {c});
    }
  }

  /** How many components lie beyond the first `n` stages. */
  ghost function Left(g: Deps, n: nat): nat {
    |g.Keys - Below(g, n)|
  }

  lemma {:induction false} AnotherStage(g: Deps, levels: seq<seq<string>>, level: seq<string>)
    requires IsStaged(g, levels) && level != [] && Lists(level, Stage(g, |levels|))
    ensures IsStaged(g, levels + [level]) && Left(g, |levels| + 1) < Left(g, |levels|)
  {
    StagedExtends(g, levels, level);
    ListsSome(level, Stage(g, |levels|));
    StageSize(g, |levels|);
  }

  lemma {:induction false} StagesFrom(g: Deps, low: seq<seq<string>>) returns (levels: seq<seq<string>>)
    requires IsStaged(g, low)
    ensures IsStaged(g, levels) && Stage(g, |levels|) == {}
    decreases Left(g, |low|)
  {
    if Stage(g, |low|) == {} {
      levels := low;
    } else {
      var q := StageAsSequence(g, |low|);
      AnotherStage(g, low, q);
      var next := low + [q];
      assert |next| == |low| + 1;
      levels := StagesFrom(g, next);
    }
  }

  lemma {:induction false} StageAsSequence(g: Deps, n: nat) returns (q: seq<string>)
    requires Stage(g, n) != {}
    ensures q != [] && Lists(q, Stage(g, n))
  {
    q := SetAsSequence(Stage(g, n));
    ListsOnce(q, Stage(g, n));
  }

  lemma {:induction false} StagedExtends(g: Deps, low: seq<seq<string>>, q: seq<string>)
    requires IsStaged(g, low) && IsStage(g, q, |low|)
    ensures IsStaged(g, low + [q])
  {
    var levels := low + [q];
    forall k | 0 <= k < |levels|
      ensures IsStage(g, levels[k], k)
    {
      assert levels[k] == if k < |low| then low[k] else q;
    }
  }

  lemma {:induction false} StageSize(g: Deps, n: nat)
    requires Stage(g, n) != {}
    ensures Left(g, n + 1) < Left(g, n)
  {
    BelowStep(g, n);
    var c :| c in Stage(g, n);
    assert Below(g, n + 1) <= g.Keys;
    assert g.Keys - Below(g, n + 1) <= (g.Keys - Below(g, n)) - {c};
    SubsetSize(g.Keys - Below(g, n + 1), (g.Keys - Below(g, n)) - {c});
  }

  lemma {:induction false} SubsetSize(a: set<string>, b: set<string>)
    requires a <= b
    ensures |a| <= |b|
  {
    if a != {} {
      var c :| c in a;
      SubsetSize(a - {c}, b - {c});
    }
  }

  lemma {:induction false} LayeringExists(g: Deps) returns (levels: seq<seq<string>>)
    requires Closed(g)
    ensures IsLayering(g, levels)
  {
    levels := StagesFrom(g, []);
    NoStageSaturates(g, |levels|);
    StagedIsLayering(g, levels);
  }
}
