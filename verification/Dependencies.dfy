/**
 The dependency graph of the controller: construction with validation, the recursive cycle
 search, and the level-by-level topological sort.  Loops over Go maps become loops that pick any
 remaining key, so each result holds for every iteration order.
 */
module Dependencies {
  import opened Types
  import opened Walks
  import opened Layering

  datatype GraphError =
    | DuplicateName(name: string)
    | MissingDependency(component: string, dependency: string)
    | Circular(path: seq<string>)
    | CircularInvolving(name: string)

  predicate UniqueNames(cs: seq<Component>) {
    forall i, j | 0 <= i < j < |cs| :: cs[i].name != cs[j].name
  }

  function ByName(cs: seq<Component>): (m: map<string, Component>)
    requires UniqueNames(cs)
  {
    map i | 0 <= i < |cs| :: cs[i].name := cs[i]
  }

  function DepsOf(cs: seq<Component>): (g: Deps)
    requires UniqueNames(cs)
  {
    map n | n in ByName(cs) :: ByName(cs)[n].dependsOn
  }

  /** What a spec has to satisfy: distinct names, existing dependencies, no dependency cycle. */
  ghost predicate ValidSpec(cs: seq<Component>) {
    UniqueNames(cs) && Closed(DepsOf(cs)) && Acyclic(DepsOf(cs))
  }

  /** What a rejection claims about the spec.  The last error is never the right one to report. */
  ghost predicate Explains(cs: seq<Component>, error: GraphError) {
    match error
    case DuplicateName(n) =>
      exists i, j :: 0 <= i < j < |cs| && cs[i].name == n == cs[j].name && UniqueNames(cs[..j])
    case MissingDependency(c, d) =>
      UniqueNames(cs) && c in DepsOf(cs) && d in DepsOf(cs)[c] && d !in DepsOf(cs)
    case Circular(path) =>
      UniqueNames(cs) && Closed(DepsOf(cs)) && IsCycle(DepsOf(cs), path)
    case CircularInvolving(_) => false
  }

  lemma UniqueNamesSnoc(cs: seq<Component>, c: Component)
    requires UniqueNames(cs) && c.name !in ByName(cs)
    ensures UniqueNames(cs + [c])
  {
    forall i | 0 <= i < |cs|
      ensures cs[i].name != c.name
    {
      assert cs[i].name in ByName(cs);
    }
  }

  lemma NamesSnoc(cs: seq<Component>, c: Component)
    requires UniqueNames(cs) && c.name !in ByName(cs)
    ensures UniqueNames(cs + [c]) && ByName(cs + [c]) == ByName(cs)[c.name := c]
  {
    UniqueNamesSnoc(cs, c);
    var longer, m := ByName(cs + [c]), ByName(cs)[c.name := c];
    forall i | 0 <= i <= |cs|
      ensures (cs + [c])[i].name in m && m[(cs + [c])[i].name] == (cs + [c])[i]
    {
      assert i < |cs| ==> cs[i].name in ByName(cs) && cs[i].name != c.name;
    }
    forall n | n in m
      ensures n in longer
    {
      if n in ByName(cs) {
        var i :| 0 <= i < |cs| && cs[i].name == n;
        assert (cs + [c])[i].name == n;
      } else {
        assert (cs + [c])[|cs|].name == n;
      }
    }
  }

  // ------------------------------------------------------------ edges in both directions

  /** Edges only join known components, and reverse edges occur as often as forward edges. */
  ghost predicate Mirrored(g: Deps, r: Deps) {
    && r.Keys == g.Keys
    && (forall d | d in r :: Known(g, r[d]) && Known(g, g[d]))
    && (forall c, d {:trigger Balanced(g, r, c, d)} | c in g && d in g :: Balanced(g, r, c, d))
  }

  ghost predicate Known(g: Deps, names: seq<string>) {
    forall x | x in names :: x in g
  }

  ghost predicate Balanced(g: Deps, r: Deps, c: string, d: string)
    requires c in g && d in r
  {
    multiset(r[d])[c] == multiset(g[c])[d]
  }

  lemma {:induction false} MirroredAfterEdge(g: Deps, r: Deps, c: string, d: string)
    requires Mirrored(g, r) && c in g && d in g
    ensures Mirrored(g[c := g[c] + [d]], r[d := r[d] + [c]])
  {
    var g', r' := g[c := g[c] + [d]], r[d := r[d] + [c]];
    forall x, y | x in g' && y in g'
      ensures Balanced(g', r', x, y)
    {
      assert Balanced(g, r, x, y);
    }
    forall y | y in r'
      ensures Known(g', r'[y]) && Known(g', g'[y])
    {
      assert Known(g, r[y]) && Known(g, g[y]);
    }
  }

  /** Forward edges are complete for the first `i` components and up to entry `j` for the next. */
  ghost predicate EdgesAdded(cs: seq<Component>, g: Deps, r: Deps, i: nat, j: nat)
    requires UniqueNames(cs)
  {
    && g.Keys == ByName(cs).Keys && Mirrored(g, r)
    && forall k {:trigger EdgesOf(cs[k], g, k, i, j)} | 0 <= k < |cs| :: EdgesOf(cs[k], g, k, i, j)
  }

  ghost predicate EdgesOf(c: Component, g: Deps, k: nat, i: nat, j: nat) {
    && c.name in g
    && (k == i ==> j <= |c.dependsOn|)
    && g[c.name] == if k < i then c.dependsOn else if k == i then c.dependsOn[..j] else []
  }

  lemma {:induction false} NoEdgesAdded(cs: seq<Component>, g: Deps, r: Deps)
    requires UniqueNames(cs) && g.Keys == r.Keys == ByName(cs).Keys && forall c | c in g :: g[c] == r[c] == []
    ensures EdgesAdded(cs, g, r, 0, 0)
  {
    forall k | 0 <= k < |cs|
      ensures EdgesOf(cs[k], g, k, 0, 0)
    {
      assert cs[k].name in ByName(cs);
    }
  }

  lemma {:induction false} EdgeAdded(cs: seq<Component>, g: Deps, r: Deps, i: nat, j: nat)
    requires UniqueNames(cs) && i < |cs| && j < |cs[i].dependsOn|
    requires EdgesAdded(cs, g, r, i, j) && cs[i].dependsOn[j] in g
    ensures var c, d := cs[i].name, cs[i].dependsOn[j];
            c in g && d in r && EdgesAdded(cs, g[c := g[c] + [d]], r[d := r[d] + [c]], i, j + 1)
  {
    var c, d := cs[i].name, cs[i].dependsOn[j];
    assert EdgesOf(cs[i], g, i, i, j);
    MirroredAfterEdge(g, r, c, d);
    var g' := g[c := g[c] + [d]];
    assert cs[i].dependsOn[..j + 1] == cs[i].dependsOn[..j] + [d];
    forall k | 0 <= k < |cs|
      ensures EdgesOf(cs[k], g', k, i, j + 1)
    {
      assert EdgesOf(cs[k], g, k, i, j);
      assert k < i ==> cs[k].name != cs[i].name;
      assert k > i ==> cs[i].name != cs[k].name;
    }
  }

  lemma {:induction false} NextComponent(cs: seq<Component>, g: Deps, r: Deps, i: nat)
    requires UniqueNames(cs) && i < |cs| && EdgesAdded(cs, g, r, i, |cs[i].dependsOn|)
    ensures EdgesAdded(cs, g, r, i + 1, 0)
  {
    forall k | 0 <= k < |cs|
      ensures EdgesOf(cs[k], g, k, i + 1, 0)
    {
      assert EdgesOf(cs[k], g, k, i, |cs[i].dependsOn|);
    }
  }

  lemma {:induction false} AllEdgesAdded(cs: seq<Component>, g: Deps, r: Deps)
    requires UniqueNames(cs) && EdgesAdded(cs, g, r, |cs|, 0)
    ensures g == DepsOf(cs) && Closed(g)
  {
    assert DepsOf(cs).Keys == ByName(cs).Keys;
    forall n | n in g
      ensures g[n] == DepsOf(cs)[n] && Known(g, g[n])
    {
      var k :| 0 <= k < |cs| && cs[k].name == n;
      assert EdgesOf(cs[k], g, k, |cs|, 0) && ByName(cs)[n] == cs[k];
      assert Known(g, r[n]) && Known(g, g[n]);
    }
  }

  lemma {:induction false} MissingIsExplained(cs: seq<Component>, i: nat, d: string)
    requires UniqueNames(cs) && i < |cs| && d in cs[i].dependsOn && d !in ByName(cs)
    ensures Explains(cs, MissingDependency(cs[i].name, d)) && !Closed(DepsOf(cs))
  {
    assert cs[i].name in ByName(cs) && ByName(cs)[cs[i].name] == cs[i];
    assert cs[i].name in DepsOf(cs) && d in DepsOf(cs)[cs[i].name] && d !in DepsOf(cs);
  }

  // ------------------------------------------------------------ counting open dependencies

  /** How many entries of a dependency list have not been dealt with, repetitions counted. */
  function Pending(ds: seq<string>, done: set<string>): (n: nat)
    ensures n == 0 <==> forall d | d in ds :: d in done
  {
    if ds == [] then 0 else (if ds[0] in done then 0 else 1) + Pending(ds[1..], done)
  }

  lemma {:induction false} PendingAtStart(ds: seq<string>)
    ensures Pending(ds, {}) == |ds|
  {
    if ds != [] {
      PendingAtStart(ds[1..]);
    }
  }

  lemma {:induction false} PendingDrops(ds: seq<string>, done: set<string>, c: string)
    requires c !in done
    ensures Pending(ds, done) == Pending(ds, done + {c}) + multiset(ds)[c]
  {
    if ds != [] {
      PendingDrops(ds[1..], done, c);
      assert multiset(ds) == multiset{ds[0]} + multiset(ds[1..]) by {
        assert ds == [ds[0]] + ds[1..];
      }
    }
  }

  /** The in-degrees once `done` has been counted off everywhere. */
  ghost function InDegrees(g: Deps, done: set<string>): map<string, int> {
    map c | c in g :: Pending(g[c], done)
  }

  /** The in-degrees while one more component is being counted off at its first `b` dependents. */
  ghost function InDegreesWhile(g: Deps, done: set<string>, outs: seq<string>, b: nat): map<string, int>
    requires b <= |outs|
  {
    map c | c in g :: Pending(g[c], done) - multiset(outs[..b])[c]
  }

  /** The components outside `layered` whose in-degree has dropped to zero. */
  ghost function Zeroes(inDegree: map<string, int>, layered: set<string>): set<string> {
    set c | c in inDegree && c !in layered && inDegree[c] == 0
  }

  lemma {:induction false} ZeroesStep(queue: seq<string>, layered: set<string>, inDegree: map<string, int>, x: string)
    requires Lists(queue, Zeroes(inDegree, layered)) && x !in layered && x in inDegree && inDegree[x] >= 1
    ensures var inDegree' := inDegree[x := inDegree[x] - 1];
            Lists(if inDegree'[x] == 0 then queue + [x] else queue, Zeroes(inDegree', layered))
  {
    var inDegree' := inDegree[x := inDegree[x] - 1];
    var before, after := Zeroes(inDegree, layered), Zeroes(inDegree', layered);
    assert after == if inDegree'[x] == 0 then before + {x} else before;
    assert x !in before;
  }

  /** Everything that depends on `comp` lies outside `layered`. */
  ghost predicate DependentsOutside(g: Deps, comp: string, layered: set<string>) {
    forall c | c in g && comp in g[c] :: c !in layered
  }

  /** `level` leads from the stage `low` to the next stage `high`. */
  ghost predicate LevelBetween(g: Deps, level: seq<string>, low: set<string>, high: set<string>) {
    && low <= high <= g.Keys && Lists(level, high - low)
    && (forall c | c in high - low :: DependentsOutside(g, c, high))
    && Zeroes(InDegrees(g, low), high) == {}
  }

  /** `low` and what the first `a` components of a level add to it. */
  ghost function Done(level: seq<string>, low: set<string>, a: nat): set<string>
    requires a <= |level|
  {
    if a == 0 then low else Done(level, low, a - 1) + {level[a - 1]}
  }

  lemma {:induction false} DoneIsPrefix(level: seq<string>, low: set<string>, a: nat, c: string)
    requires a <= |level|
    ensures c in Done(level, low, a) <==> c in low || c in level[..a]
  {
    if a > 0 {
      DoneIsPrefix(level, low, a - 1, c);
      assert level[..a] == level[..a - 1] + [level[a - 1]];
    }
  }

  /** The next component of a level is new, and its dependents lie above the level. */
  lemma {:induction false} LevelAt(g: Deps, level: seq<string>, low: set<string>, high: set<string>, a: nat)
    requires LevelBetween(g, level, low, high) && a < |level|
    ensures level[a] in g && level[a] !in Done(level, low, a) && DependentsOutside(g, level[a], high)
  {
    ListsOnce(level, high - low);
    assert level[a] in level;
    DoneIsPrefix(level, low, a, level[a]);
  }

  lemma {:induction false} LevelEnds(g: Deps, level: seq<string>, low: set<string>, high: set<string>)
    requires LevelBetween(g, level, low, high)
    ensures Done(level, low, |level|) == high
  {
    ListsOnce(level, high - low);
    assert level[..|level|] == level;
    forall c
      ensures c in Done(level, low, |level|) <==> c in high
    {
      DoneIsPrefix(level, low, |level|, c);
    }
  }

  // ------------------------------------------------------------ stages

  lemma {:induction false} QueueIsStage(g: Deps, n: nat)
    requires Closed(g)
    ensures Zeroes(InDegrees(g, Below(g, n)), Below(g, n)) == Stage(g, n)
  {
    var inDegree := InDegrees(g, Below(g, n));
    forall c
      ensures c in Zeroes(inDegree, Below(g, n)) <==> c in Stage(g, n)
    {
      assert c in g ==> inDegree[c] == Pending(g[c], Below(g, n));
    }
  }

  lemma {:induction false} StageIsLevel(g: Deps, level: seq<string>, n: nat)
    requires Closed(g) && Lists(level, Stage(g, n))
    ensures LevelBetween(g, level, Below(g, n), Below(g, n + 1))
  {
    BelowStep(g, n);
    forall c | c in InDegrees(g, Below(g, n)) && c !in Below(g, n + 1)
      ensures InDegrees(g, Below(g, n))[c] != 0
    {
    }
  }

  /** The state of the level-by-level loop. */
  ghost predicate Layered(g: Deps, levels: seq<seq<string>>, queue: seq<string>, inDegree: map<string, int>) {
    && IsStaged(g, levels)
    && inDegree == InDegrees(g, Below(g, |levels|)) && Lists(queue, Stage(g, |levels|))
  }

  lemma {:induction false} LayeredStarts(g: Deps, queue: seq<string>, inDegree: map<string, int>)
    requires Closed(g) && inDegree == InDegrees(g, {}) && Lists(queue, Zeroes(inDegree, {}))
    ensures Layered(g, [], queue, inDegree)
  {
    QueueIsStage(g, 0);
  }

  lemma {:induction false} LayeredStep(
    g: Deps, levels: seq<seq<string>>, level: seq<string>, queue: seq<string>, inDegree: map<string, int>)
    requires Closed(g) && IsStaged(g, levels) && level != [] && Lists(level, Stage(g, |levels|))
    requires inDegree == InDegrees(g, Done(level, Below(g, |levels|), |level|))
    requires Lists(queue, Zeroes(inDegree, Below(g, |levels| + 1)))
    ensures Layered(g, levels + [level], queue, inDegree)
  {
    assert Done(level, Below(g, |levels|), |level|) == Below(g, |levels| + 1) by {
      StageIsLevel(g, level, |levels|);
      LevelEnds(g, level, Below(g, |levels|), Below(g, |levels| + 1));
    }
    QueueIsStage(g, |levels| + 1);
    AnotherStage(g, levels, level);
    assert |levels + [level]| == |levels| + 1;
  }

  /** A level that is not empty takes components from those that are left. */
  lemma LevelTakesSome(g: Deps, levels: seq<seq<string>>, queue: seq<string>, inDegree: map<string, int>)
    requires Layered(g, levels, queue, inDegree) && queue != []
    ensures Left(g, |levels| + 1) < Left(g, |levels|)
  {
    AnotherStage(g, levels, queue);
  }

  lemma {:induction false} LayeredEnds(g: Deps, levels: seq<seq<string>>, inDegree: map<string, int>)
    requires Closed(g) && Layered(g, levels, [], inDegree)
    ensures IsLayering(g, levels)
  {
    ListsOnce([], Stage(g, |levels|));
    NoStageSaturates(g, |levels|);
    StagedIsLayering(g, levels);
  }

  // ------------------------------------------------------------ counting off one component

  lemma {:induction false} MirroredEdge(g: Deps, r: Deps, comp: string, b: nat)
    requires Mirrored(g, r) && comp in g && b < |r[comp]|
    ensures r[comp][b] in g && multiset(r[comp])[r[comp][b]] == multiset(g[r[comp][b]])[comp]
  {
    assert Known(g, r[comp]);
    assert Balanced(g, r, r[comp][b], comp);
  }

  lemma {:induction false} SeenStep(outs: seq<string>, b: nat)
    requires b < |outs|
    ensures multiset(outs[..b + 1]) == multiset(outs[..b]) + multiset{outs[b]}
    ensures multiset(outs[..b])[outs[b]] < multiset(outs)[outs[b]]
  {
    assert outs[..b + 1] == outs[..b] + [outs[b]];
    assert outs == outs[..b + 1] + outs[b + 1..];
    assert multiset(outs) == multiset(outs[..b + 1]) + multiset(outs[b + 1..]);
  }

  /** The dependent about to be counted off still waits for `comp`. */
  lemma {:induction false} StillWaiting(g: Deps, r: Deps, comp: string, b: nat, done: set<string>)
    requires Mirrored(g, r) && comp in g && b < |r[comp]| && comp !in done
    ensures r[comp][b] in g && comp in g[r[comp][b]]
    ensures InDegreesWhile(g, done, r[comp], b)[r[comp][b]] >= 1
  {
    var x := r[comp][b];
    MirroredEdge(g, r, comp, b);
    SeenStep(r[comp], b);
    PendingDrops(g[x], done, comp);
    assert multiset(g[x])[comp] >= 1;
  }

  /** Counting `comp` off at one more dependent. */
  lemma {:induction false} CountedOff(g: Deps, done: set<string>, outs: seq<string>, b: nat)
    requires b < |outs| && outs[b] in g
    ensures InDegreesWhile(g, done, outs, b + 1)
         == var n := InDegreesWhile(g, done, outs, b); n[outs[b] := n[outs[b]] - 1]
  {
    SeenStep(outs, b);
  }

  /** The state of the innermost loop after `b` dependents of `comp`. */
  ghost predicate Releasing(g: Deps, outs: seq<string>, b: nat, done: set<string>, layered: set<string>,
                            inDegree: map<string, int>, queue: seq<string>)
    requires b <= |outs|
  {
    inDegree == InDegreesWhile(g, done, outs, b) && Lists(queue, Zeroes(inDegree, layered))
  }

  lemma {:induction false} ReleaseStep(
    g: Deps, r: Deps, comp: string, b: nat, done: set<string>, layered: set<string>,
    inDegree: map<string, int>, queue: seq<string>)
    requires Mirrored(g, r) && comp in g && b < |r[comp]| && comp !in done && DependentsOutside(g, comp, layered)
    requires Releasing(g, r[comp], b, done, layered, inDegree, queue)
    ensures r[comp][b] in inDegree
    ensures var x := r[comp][b];
            var left := inDegree[x] - 1;
            Releasing(g, r[comp], b + 1, done, layered, inDegree[x := left], if left == 0 then queue + [x] else queue)
  {
    StillWaiting(g, r, comp, b, done);
    CountedOff(g, done, r[comp], b);
    ZeroesStep(queue, layered, inDegree, r[comp][b]);
  }

  lemma {:induction false} ReleaseStarts(g: Deps, outs: seq<string>, done: set<string>)
    ensures InDegreesWhile(g, done, outs, 0) == InDegrees(g, done)
  {
  }

  lemma {:induction false} ReleasedAt(g: Deps, r: Deps, comp: string, done: set<string>, c: string)
    requires Mirrored(g, r) && comp in g && comp !in done && c in g
    ensures Pending(g[c], done) - multiset(r[comp])[c] == Pending(g[c], done + {comp})
  {
    assert Balanced(g, r, c, comp);
    PendingDrops(g[c], done, comp);
  }

  lemma {:induction false} ReleaseEnds(g: Deps, r: Deps, comp: string, done: set<string>)
    requires Mirrored(g, r) && comp in g && comp !in done
    ensures InDegreesWhile(g, done, r[comp], |r[comp]|) == InDegrees(g, done + {comp})
  {
    assert r[comp][..|r[comp]|] == r[comp];
    forall c | c in g
      ensures InDegreesWhile(g, done, r[comp], |r[comp]|)[c] == InDegrees(g, done + {comp})[c]
    {
      ReleasedAt(g, r, comp, done, c);
    }
  }

  // ------------------------------------------------------------ the cycle search

  /**
   The state of the search: `path` is a chain of dependency edges that holds exactly the marked nodes,
   and `order` lists the fully explored ones with dependencies first.
   */
  ghost predicate Searching(
    g: Deps, visited: set<string>, recStack: set<string>, path: seq<string>, order: seq<string>)
  {
    && Closed(g) && recStack <= visited <= g.Keys
    && Lists(path, recStack) && (path != [] ==> IsWalk(g, path))
    && Lists(order, visited - recStack) && DependenciesFirst(g, order)
  }

  ghost predicate CanEnter(g: Deps, path: seq<string>, node: string) {
    path == [] || (path[|path| - 1] in g && node in g[path[|path| - 1]])
  }

  ghost predicate Explored(ds: seq<string>, i: nat, visited: set<string>, recStack: set<string>) {
    forall j | 0 <= j < i && j < |ds| :: ds[j] in visited && ds[j] !in recStack
  }

  lemma {:induction false} Entered(
    g: Deps, visited: set<string>, recStack: set<string>, path: seq<string>, order: seq<string>, node: string)
    requires Searching(g, visited, recStack, path, order) && node in g && node !in visited && CanEnter(g, path, node)
    ensures Searching(g, visited + {node}, recStack + {node}, path + [node], order)
  {
    if path != [] {
      WalkSnoc(g, path, node);
    }
    assert visited + {node} - (recStack + {node}) == visited - recStack;
    assert multiset(recStack + {node}) == multiset(recStack) + multiset{node};
  }

  lemma {:induction false} NextCanBeEntered(
    g: Deps, visited: set<string>, recStack: set<string>, path: seq<string>, order: seq<string>, i: nat)
    requires Searching(g, visited, recStack, path, order) && path != [] && i < |g[path[|path| - 1]]|
    ensures var dep := g[path[|path| - 1]][i]; dep in g && CanEnter(g, path, dep)
  {
  }

  lemma {:induction false} CycleFound(g: Deps, path: seq<string>, cycleStart: nat, dep: string)
    requires IsWalk(g, path) && cycleStart < |path| && path[cycleStart] == dep && dep in g[path[|path| - 1]]
    ensures IsCycle(g, path[cycleStart..] + [dep])
  {
    WalkSlice(g, path, cycleStart, |path|);
    assert path[cycleStart..|path|] == path[cycleStart..];
    WalkSnoc(g, path[cycleStart..], dep);
  }

  lemma {:induction false} ListsSnoc(q: seq<string>, s: set<string>, c: string)
    requires Lists(q, s) && c !in s
    ensures Lists(q + [c], s + {c})
  {
    assert multiset(s + {c}) == multiset(s) + multiset{c};
  }

  lemma {:induction false} ListsLast(q: seq<string>, s: set<string>)
    requires Lists(q, s) && q != []
    ensures q[|q| - 1] in s && Lists(q[..|q| - 1], s - {q[|q| - 1]})
  {
    var c, rest := q[|q| - 1], q[..|q| - 1];
    assert q == rest + [c];
    assert multiset(rest + [c]) == multiset(rest) + multiset{c};
    ListsOnce(q, s);
    assert c in q;
    assert multiset(s) == multiset(s - {c}) + multiset{c};
    assert multiset(rest) == multiset(q) - multiset{c} == multiset(s - {c});
  }

  lemma {:induction false} Departed(
    g: Deps, visited: set<string>, recStack: set<string>, path: seq<string>, order: seq<string>, node: string)
    requires Searching(g, visited, recStack, path, order)
    requires path != [] && path[|path| - 1] == node && Explored(g[node], |g[node]|, visited, recStack)
    ensures Searching(g, visited, recStack - {node}, path[..|path| - 1], order + [node])
  {
    var rest := path[..|path| - 1];
    ListsLast(path, recStack);
    if rest != [] {
      WalkSlice(g, path, 0, |rest|);
      assert path[0..|rest|] == rest;
    }
    ListsOnce(order, visited - recStack);
    forall d | d in g[node]
      ensures d in order
    {
      var j :| 0 <= j < |g[node]| && g[node][j] == d;
    }
    DependenciesFirstSnoc(g, order, node);
    assert visited - (recStack - {node}) == visited - recStack + {node};
    ListsSnoc(order, visited - recStack, node);
  }

  /** The variables captured by the recursive closure of the cycle check. */
  class CycleSearch {
    const deps: Deps
    var visited: set<string>
    var recStack: set<string>
    var path: seq<string>
    // Fully explored components, in the order in which they were left.
    ghost var order: seq<string>

    constructor (deps: Deps)
      ensures this.deps == deps && visited == {} && recStack == {} && path == [] && order == []
    {
      this.deps := deps;
      visited, recStack, path, order := {}, {}, [], [];
    }

    ghost predicate Valid()
      reads this
    {
      Searching(deps, visited, recStack, path, order)
    }

    method Enter(node: string)
      requires Valid() && node in deps && node !in visited && CanEnter(deps, path, node)
      modifies this
      ensures Valid() && path == old(path) + [node] && recStack == old(recStack) + {node}
      ensures visited == old(visited) + {node}
    {
      Entered(deps, visited, recStack, path, order, node);
      visited := visited + {node};
      recStack := recStack + {node};
      path := path + [node];
    }

    method Leave(node: string)
      requires Valid() && path != [] && path[|path| - 1] == node
      requires Explored(deps[node], |deps[node]|, visited, recStack)
      modifies this
      ensures Valid() && path == old(path[..|path| - 1]) && recStack == old(recStack) - {node}
      ensures visited == old(visited)
    {
      Departed(deps, visited, recStack, path, order, node);
      recStack := recStack - {node};
      path := path[..|path| - 1];
      order := order + [node];
    }

    /** The chain from the first occurrence of `dep` on the path back to `dep`. */
    method ReportCycle(dep: string) returns (err: Option<GraphError>)
      requires IsWalk(deps, path) && Lists(path, recStack) && dep in recStack && CanEnter(deps, path, dep)
      ensures err.Some? && err.value.Circular? && IsCycle(deps, err.value.path)
    {
      var cycleStart := FirstIndex(path, dep);
      ListsOnce(path, recStack);
      CycleFound(deps, path, cycleStart, dep);
      err := Some(if 0 <= cycleStart then Circular(path[cycleStart..] + [dep]) else CircularInvolving(dep));
    }

    method Visit(node: string) returns (err: Option<GraphError>)
      requires Valid() && node in deps && node !in visited && CanEnter(deps, path, node)
      modifies this
      ensures err.None? ==> Valid() && path == old(path) && recStack == old(recStack)
      ensures err.None? ==> old(visited) <= visited && node in visited
      ensures err.Some? ==> err.value.Circular? && IsCycle(deps, err.value.path)
      decreases deps.Keys - visited
    {
      Enter(node);
      for i := 0 to |deps[node]|
        invariant Valid() && path == old(path) + [node] && recStack == old(recStack) + {node}
        invariant old(visited) + {node} <= visited
        invariant Explored(deps[node], i, visited, recStack)
      {
        var dep := deps[node][i];
        NextCanBeEntered(deps, visited, recStack, path, order, i);
        if dep !in visited {
          err := Visit(dep);
          if err.Some? {
            return;
          }
        } else if dep in recStack {
          err := ReportCycle(dep);
          return;
        }
      }
      Leave(node);
      err := None;
    }
  }

  method FirstIndex(path: seq<string>, dep: string) returns (cycleStart: int)
    ensures dep in path ==> 0 <= cycleStart < |path| && path[cycleStart] == dep && dep !in path[..cycleStart]
    ensures dep !in path ==> cycleStart == -1
  {
    cycleStart := -1;
    for i := 0 to |path|
      invariant cycleStart == -1 && dep !in path[..i]
    {
      if path[i] == dep {
        return i;
      }
    }
  }

  // ------------------------------------------------------------ the graph

  class DependencyGraph {
    var dependencies: Deps
    var dependents: Deps
    var components: set<string>
    var componentsByName: map<string, Component>

    constructor ()
      ensures dependencies == map[] && dependents == map[] && components == {} && componentsByName == map[]
    {
      dependencies, dependents, components, componentsByName := map[], map[], {}, map[];
    }

    ghost predicate Valid()
      reads this
    {
      components == dependencies.Keys && Closed(dependencies) && Mirrored(dependencies, dependents)
    }

    ghost predicate NoEdges()
      reads this
    {
      && components == dependencies.Keys == dependents.Keys
      && forall c | c in components :: dependencies[c] == dependents[c] == []
    }

    method AddComponent(comp: Component)
      requires NoEdges()
      modifies this
      ensures NoEdges() && components == old(components) + {comp.name}
      ensures componentsByName == old(componentsByName)[comp.name := comp]
    {
      components := components + {comp.name};
      componentsByName := componentsByName[comp.name := comp];
      dependencies := dependencies[comp.name := []];
      dependents := dependents[comp.name := []];
    }

    /** First pass over the spec: register the names. */
    method Register(cs: seq<Component>) returns (err: Option<GraphError>)
      requires componentsByName == map[] && components == {} && NoEdges()
      modifies this
      ensures err.None? <==> UniqueNames(cs)
      ensures err.None? ==> componentsByName == ByName(cs) && components == ByName(cs).Keys && NoEdges()
      ensures err.Some? ==> Explains(cs, err.value)
    {
      for i := 0 to |cs|
        invariant UniqueNames(cs[..i]) && componentsByName == ByName(cs[..i])
        invariant components == componentsByName.Keys && NoEdges()
      {
        var comp := cs[i];
        assert cs[..i + 1] == cs[..i] + [comp];
        if comp.name in components {
          ghost var j :| 0 <= j < i && cs[..i][j].name == comp.name;
          assert cs[j].name == comp.name == cs[i].name;
          return Some(DuplicateName(comp.name));
        }
        NamesSnoc(cs[..i], comp);
        AddComponent(comp);
      }
      assert cs[..|cs|] == cs;
      err := None;
    }

    /** Both directions of one edge. */
    method AddEdge(name: string, dep: string)
      requires name in dependencies && dep in dependents
      modifies this`dependencies, this`dependents
      ensures dependencies == old(dependencies[name := dependencies[name] + [dep]])
      ensures dependents == old(dependents[dep := dependents[dep] + [name]])
    {
      dependencies := dependencies[name := dependencies[name] + [dep]];
      dependents := dependents[dep := dependents[dep] + [name]];
    }

    /** Second pass, one component: forward and reverse edges for every entry, repeated or not. */
    method ConnectOne(cs: seq<Component>, i: nat) returns (err: Option<GraphError>)
      requires UniqueNames(cs) && i < |cs| && components == ByName(cs).Keys
      requires EdgesAdded(cs, dependencies, dependents, i, 0)
      modifies this`dependencies, this`dependents
      ensures err.None? ==> EdgesAdded(cs, dependencies, dependents, i + 1, 0)
      ensures err.Some? ==> err.value.MissingDependency? && Explains(cs, err.value)
    {
      var comp := cs[i];
      for j := 0 to |comp.dependsOn|
        invariant EdgesAdded(cs, dependencies, dependents, i, j)
      {
        var dep := comp.dependsOn[j];
        if dep !in components {
          MissingIsExplained(cs, i, dep);
          return Some(MissingDependency(comp.name, dep));
        }
        EdgeAdded(cs, dependencies, dependents, i, j);
        AddEdge(comp.name, dep);
      }
      NextComponent(cs, dependencies, dependents, i);
      err := None;
    }

    method Connect(cs: seq<Component>) returns (err: Option<GraphError>)
      requires UniqueNames(cs) && components == ByName(cs).Keys && NoEdges()
      modifies this`dependencies, this`dependents
      ensures err.None? <==> Closed(DepsOf(cs))
      ensures err.None? ==> Valid() && dependencies == DepsOf(cs)
      ensures err.Some? ==> Explains(cs, err.value)
    {
      NoEdgesAdded(cs, dependencies, dependents);
      for i := 0 to |cs|
        invariant EdgesAdded(cs, dependencies, dependents, i, 0)
      {
        err := ConnectOne(cs, i);
        if err.Some? {
          return;
        }
      }
      AllEdgesAdded(cs, dependencies, dependents);
      err := None;
    }

    /** Searches for a cycle from every component that no earlier root has reached. */
    method ValidateDependencies() returns (err: Option<GraphError>)
      requires Valid()
      ensures err.None? <==> Acyclic(dependencies)
      ensures err.Some? ==> err.value.Circular? && IsCycle(dependencies, err.value.path)
    {
      var search := new CycleSearch(dependencies);
      var remaining := components;
      while remaining != {}
        invariant search.Valid() && search.path == [] && search.recStack == {} && search.deps == dependencies
        invariant remaining <= components && components - remaining <= search.visited
        invariant fresh(search)
      {
        var comp :| comp in remaining;
        if comp !in search.visited {
          err := search.Visit(comp);
          if err.Some? {
            return;
          }
        }
        remaining := remaining - {comp};
      }
      ListsOnce(search.order, search.visited - search.recStack);
      OrderImpliesAcyclic(dependencies, search.order);
      err := None;
    }

    // ---------------------------------------------------------- layering

    method CountOff(inDegree0: map<string, int>, queue0: seq<string>, dependent: string)
      returns (inDegree: map<string, int>, queue: seq<string>)
      requires dependent in inDegree0
      ensures inDegree == inDegree0[dependent := inDegree0[dependent] - 1]
      ensures queue == if inDegree[dependent] == 0 then queue0 + [dependent] else queue0
    {
      inDegree, queue := inDegree0[dependent := inDegree0[dependent] - 1], queue0;
      if inDegree[dependent] == 0 {
        queue := queue + [dependent];
      }
    }

    /** The innermost loop: count `comp` off at each dependent, once per repeated entry. */
    method Release(comp: string, inDegree0: map<string, int>, queue0: seq<string>,
                   ghost done: set<string>, ghost layered: set<string>)
      returns (inDegree: map<string, int>, queue: seq<string>)
      requires Valid() && comp in components && comp !in done && DependentsOutside(dependencies, comp, layered)
      requires inDegree0 == InDegrees(dependencies, done) && Lists(queue0, Zeroes(inDegree0, layered))
      ensures inDegree == InDegrees(dependencies, done + {comp}) && Lists(queue, Zeroes(inDegree, layered))
    {
      inDegree, queue := inDegree0, queue0;
      var outs := dependents[comp];
      ReleaseStarts(dependencies, outs, done);
      for b := 0 to |outs|
        invariant Releasing(dependencies, outs, b, done, layered, inDegree, queue)
      {
        var dependent := outs[b];
        ReleaseStep(dependencies, dependents, comp, b, done, layered, inDegree, queue);
        inDegree, queue := CountOff(inDegree, queue, dependent);
      }
      ReleaseEnds(dependencies, dependents, comp, done);
    }

    /** Initial in-degrees: the number of listed dependencies. */
    method InitialInDegrees() returns (inDegree: map<string, int>)
      requires Valid()
      ensures inDegree == InDegrees(dependencies, {})
    {
      inDegree := map[];
      var remaining := components;
      while remaining != {}
        invariant remaining <= components && inDegree.Keys == components - remaining
        invariant forall c | c in inDegree :: inDegree[c] == |dependencies[c]|
      {
        var comp :| comp in remaining;
        inDegree := inDegree[comp := |dependencies[comp]|];
        remaining := remaining - {comp};
      }
      forall c | c in dependencies
        ensures inDegree[c] == Pending(dependencies[c], {})
      {
        PendingAtStart(dependencies[c]);
      }
    }

    /** The components without dependencies. */
    method InitialQueue(inDegree: map<string, int>) returns (queue: seq<string>)
      requires Valid() && inDegree.Keys == dependencies.Keys
      ensures Lists(queue, Zeroes(inDegree, {}))
    {
      queue := [];
      var remaining := components;
      while remaining != {}
        invariant remaining <= components && Lists(queue, Zeroes(inDegree, {}) - remaining)
      {
        var comp :| comp in remaining;
        ghost var before := Zeroes(inDegree, {}) - remaining;
        remaining := remaining - {comp};
        assert Zeroes(inDegree, {}) - remaining == if inDegree[comp] == 0 then before + {comp} else before;
        if inDegree[comp] == 0 {
          queue := queue + [comp];
        }
      }
      assert Zeroes(inDegree, {}) - {} == Zeroes(inDegree, {});
    }

    /** Counts one whole level off at its dependents and collects the next level. */
    method ReleaseLevel(ghost levels: seq<seq<string>>, currentLevel: seq<string>, inDegree0: map<string, int>)
      returns (queue: seq<string>, inDegree: map<string, int>)
      requires Valid() && Layered(dependencies, levels, currentLevel, inDegree0) && currentLevel != []
      ensures Layered(dependencies, levels + [currentLevel], queue, inDegree)
    {
      queue, inDegree := [], inDegree0;
      ghost var n := |levels|;
      ghost var low, high := Below(dependencies, n), Below(dependencies, n + 1);
      StageIsLevel(dependencies, currentLevel, n);
      for a := 0 to |currentLevel|
        invariant inDegree == InDegrees(dependencies, Done(currentLevel, low, a))
        invariant Lists(queue, Zeroes(inDegree, high))
      {
        LevelAt(dependencies, currentLevel, low, high, a);
        inDegree, queue := Release(currentLevel[a], inDegree, queue, Done(currentLevel, low, a), high);
      }
      LayeredStep(dependencies, levels, currentLevel, queue, inDegree);
    }

    /** Groups the components into levels; total even on a cyclic graph, where it omits some. */
    method ComputeScalingLevels() returns (levels: seq<seq<string>>)
      requires Valid()
      ensures IsLayering(dependencies, levels)
    {
      var inDegree := InitialInDegrees();
      var queue := InitialQueue(inDegree);
      levels := [];
      LayeredStarts(dependencies, queue, inDegree);
      while |queue| > 0
        invariant Layered(dependencies, levels, queue, inDegree)
        decreases Left(dependencies, |levels|)
      {
        var currentLevel := queue;
        LevelTakesSome(dependencies, levels, currentLevel, inDegree);
        queue, inDegree := ReleaseLevel(levels, currentLevel, inDegree);
        levels := levels + [currentLevel];
      }
      LayeredEnds(dependencies, levels, inDegree);
    }
  }

  /** Builds and validates the graph of a component list; succeeds exactly on a valid spec. */
  method BuildDependencyGraph(cs: seq<Component>) returns (graph: DependencyGraph?, err: Option<GraphError>)
    ensures graph != null <==> ValidSpec(cs)
    ensures err.None? <==> ValidSpec(cs)
    ensures err.Some? ==> Explains(cs, err.value)
    ensures graph != null ==>
              && fresh(graph) && graph.Valid()
              && graph.dependencies == DepsOf(cs) && graph.componentsByName == ByName(cs)
    ensures graph != null ==>
              forall i | 0 <= i < |cs| ::
                && cs[i].name in graph.dependencies && graph.dependencies[cs[i].name] == cs[i].dependsOn
                && cs[i].name in graph.componentsByName && graph.componentsByName[cs[i].name] == cs[i]
  {
    var g := new DependencyGraph();
    err := g.Register(cs);
    if err.Some? {
      return null, err;
    }
    err := g.Connect(cs);
    if err.Some? {
      return null, err;
    }
    err := g.ValidateDependencies();
    if err.Some? {
      return null, err;
    }
    return g, None;
  }
}
