/** Directed graphs given by an edge relation: paths, reachability from a set
    of seeds, and cycles.

    Every walk and every delta chain of the engine is stated against these
    definitions, so none of them mentions a band, a stack or a visited set.
*/
module Graphs {

  /** Consecutive vertices of `p` are joined by an edge. */
  ghost predicate IsPath<V(!new)>(edge: (V, V) -> bool, p: seq<V>)
  {
    |p| >= 1 && forall i :: 0 <= i < |p| - 1 ==> edge(p[i], p[i + 1])
  }

  /** `p` leads from one of `seeds` to `x`. */
  ghost predicate Leads<V(!new)>(edge: (V, V) -> bool, seeds: set<V>, p: seq<V>, x: V)
  {
    IsPath(edge, p) && p[0] in seeds && p[|p| - 1] == x
  }

  /** `x` is a seed, or some path from a seed ends at it. */
  ghost predicate Reaches<V(!new)>(edge: (V, V) -> bool, seeds: set<V>, x: V)
  {
    exists p :: Leads(edge, seeds, p, x)
  }

  /** A path of at least one edge that returns to where it started. */
  ghost predicate IsCycle<V(!new)>(edge: (V, V) -> bool, p: seq<V>)
  {
    IsPath(edge, p) && |p| >= 2 && p[0] == p[|p| - 1]
  }

  ghost predicate Acyclic<V(!new)>(edge: (V, V) -> bool)
  {
    forall p :: !IsCycle(edge, p)
  }

  /** Nothing twice. */
  ghost predicate Distinct(q: seq<int>)
  {
    forall i, j :: 0 <= i < j < |q| ==> q[i] != q[j]
  }

  lemma ReachSeed<V(!new)>(edge: (V, V) -> bool, seeds: set<V>, x: V)
    requires x in seeds
    ensures Reaches(edge, seeds, x)
  {
    assert Leads(edge, seeds, [x], x);
  }

  lemma ReachStep<V(!new)>(edge: (V, V) -> bool, seeds: set<V>, x: V, y: V)
    requires Reaches(edge, seeds, x) && edge(x, y)
    ensures Reaches(edge, seeds, y)
  {
    var p :| Leads(edge, seeds, p, x);
    assert Leads(edge, seeds, p + [y], y);
  }

  /** Whatever holds of the seeds and follows every edge holds of all that is reached. */
  lemma ReachInduct<V(!new)>(edge: (V, V) -> bool, seeds: set<V>, inv: V -> bool, x: V)
    requires forall s :: s in seeds ==> inv(s)
    requires forall v, w :: inv(v) && edge(v, w) ==> inv(w)
    requires Reaches(edge, seeds, x)
    ensures inv(x)
  {
    var p :| Leads(edge, seeds, p, x);
    var i := 0;
    while i < |p| - 1
      invariant 0 <= i <= |p| - 1
      invariant inv(p[i])
    {
      assert edge(p[i], p[i + 1]);
      i := i + 1;
    }
  }

  /** What is reached from something reached is reached. */
  lemma ReachTrans<V(!new)>(edge: (V, V) -> bool, seeds: set<V>, mid: set<V>, x: V)
    requires forall m :: m in mid ==> Reaches(edge, seeds, m)
    requires Reaches(edge, mid, x)
    ensures Reaches(edge, seeds, x)
  {
    forall v, w | Reaches(edge, seeds, v) && edge(v, w)
      ensures Reaches(edge, seeds, w)
    {
      ReachStep(edge, seeds, v, w);
    }
    ReachInduct(edge, mid, v => Reaches(edge, seeds, v), x);
  }

  /** Reaching is monotone in the edges. */
  lemma ReachSubgraph<V(!new)>(sub: (V, V) -> bool, edge: (V, V) -> bool, seeds: set<V>, x: V)
    requires forall v, w :: sub(v, w) ==> edge(v, w)
    requires Reaches(sub, seeds, x)
    ensures Reaches(edge, seeds, x)
  {
    var p :| Leads(sub, seeds, p, x);
    assert Leads(edge, seeds, p, x);
  }

  /** The state of a worklist walk: all that was seen or is stacked is
      reached, and every successor of what was seen is accounted for. */
  ghost predicate Swept<V(!new)>(edge: (V, V) -> bool, seeds: set<V>, seen: set<V>, stack: seq<V>)
  {
    && (forall x :: x in seen || x in stack ==> Reaches(edge, seeds, x))
    && (forall x :: x in seeds ==> x in seen || x in stack)
    && (forall x, y :: x in seen && edge(x, y) ==> y in seen || y in stack)
  }

  lemma SweptStart<V(!new)>(edge: (V, V) -> bool, seeds: set<V>, stack: seq<V>)
    requires seeds == set x | x in stack
    ensures Swept(edge, seeds, {}, stack)
  {
    forall x | x in stack ensures Reaches(edge, seeds, x) { ReachSeed(edge, seeds, x); }
  }

  /** Popping a vertex keeps the walk's state, whether it was already seen or
      its successors are stacked in its place. */
  lemma SweptPop<V(!new)>(edge: (V, V) -> bool, seeds: set<V>, seen: set<V>, stack: seq<V>, more: seq<V>)
    requires Swept(edge, seeds, seen, stack) && |stack| > 0
    requires var top := stack[|stack| - 1];
      if top in seen then more == [] else forall y :: edge(top, y) <==> y in more
    ensures Swept(edge, seeds, seen + {stack[|stack| - 1]}, stack[..|stack| - 1] + more)
  {
    var top, rest := stack[|stack| - 1], stack[..|stack| - 1];
    assert stack == rest + [top];
    assert top in stack;
    forall y | y in more ensures Reaches(edge, seeds, y) {
      ReachStep(edge, seeds, top, y);
    }
  }

  lemma SweptDone<V(!new)>(edge: (V, V) -> bool, seeds: set<V>, seen: set<V>)
    requires Swept(edge, seeds, seen, [])
    ensures forall x :: x in seen <==> Reaches(edge, seeds, x)
  {
    forall x | Reaches(edge, seeds, x) ensures x in seen {
      ReachInduct(edge, seeds, v => v in seen, x);
    }
  }

  /** Some path to `x`, starting at a seed's own depth and adding one an edge,
      arrives at depth `d` or less. */
  ghost predicate Within<V(!new)>(edge: (V, V) -> bool, seeds: map<V, int>, x: V, d: int)
  {
    exists p :: Leads(edge, seeds.Keys, p, x) && seeds[p[0]] + |p| - 1 <= d
  }

  lemma WithinSeed<V(!new)>(edge: (V, V) -> bool, seeds: map<V, int>, x: V)
    requires x in seeds
    ensures Within(edge, seeds, x, seeds[x])
  {
    assert Leads(edge, seeds.Keys, [x], x);
  }

  lemma WithinStep<V(!new)>(edge: (V, V) -> bool, seeds: map<V, int>, x: V, y: V, d: int)
    requires Within(edge, seeds, x, d) && edge(x, y)
    ensures Within(edge, seeds, y, d + 1)
  {
    var p :| Leads(edge, seeds.Keys, p, x) && seeds[p[0]] + |p| - 1 <= d;
    assert Leads(edge, seeds.Keys, p + [y], y);
  }

  lemma WithinReaches<V(!new)>(edge: (V, V) -> bool, seeds: map<V, int>, x: V, d: int)
    requires Within(edge, seeds, x, d)
    ensures Reaches(edge, seeds.Keys, x)
  {
  }

  /** Depths compose: a walk of part of the graph, from seeds already at some
      depth of the whole, arrives at depths of the whole. */
  lemma WithinTrans<V(!new)>(sub: (V, V) -> bool, edge: (V, V) -> bool,
                             mid: map<V, int>, seeds: map<V, int>, x: V, d: int)
    requires forall v, w :: sub(v, w) ==> edge(v, w)
    requires forall m :: m in mid ==> Within(edge, seeds, m, mid[m])
    requires Within(sub, mid, x, d)
    ensures Within(edge, seeds, x, d)
  {
    var p :| Leads(sub, mid.Keys, p, x) && mid[p[0]] + |p| - 1 <= d;
    var i := 0;
    while i < |p| - 1
      invariant 0 <= i <= |p| - 1
      invariant Within(edge, seeds, p[i], mid[p[0]] + i)
    {
      assert edge(p[i], p[i + 1]);
      WithinStep(edge, seeds, p[i], p[i + 1], mid[p[0]] + i);
      i := i + 1;
    }
    WithinMore(edge, seeds, x, mid[p[0]] + i, d);
  }

  lemma WithinMore<V(!new)>(edge: (V, V) -> bool, seeds: map<V, int>, x: V, d: int, e: int)
    requires Within(edge, seeds, x, d) && d <= e
    ensures Within(edge, seeds, x, e)
  {
    var p :| Leads(edge, seeds.Keys, p, x) && seeds[p[0]] + |p| - 1 <= d;
  }

  /** `best` dominates every seed, and every edge out of what it holds below `limit`. */
  ghost predicate Relaxed<V(!new)>(edge: (V, V) -> bool, seeds: map<V, int>, best: map<V, int>, limit: int)
  {
    && (forall s :: s in seeds ==> s in best && best[s] <= seeds[s])
    && (forall x, y :: x in best && best[x] < limit && edge(x, y) ==> y in best && best[y] <= best[x] + 1)
  }

  /** A relaxed map has found every path no longer than the limit. */
  lemma RelaxedIsMinimal<V(!new)>(edge: (V, V) -> bool, seeds: map<V, int>, best: map<V, int>, limit: int, x: V, d: int)
    requires Relaxed(edge, seeds, best, limit)
    requires Within(edge, seeds, x, d) && d <= limit
    ensures x in best && best[x] <= d
  {
    var p :| Leads(edge, seeds.Keys, p, x) && seeds[p[0]] + |p| - 1 <= d;
    var i := 0;
    while i < |p| - 1
      invariant 0 <= i <= |p| - 1
      invariant p[i] in best && best[p[i]] <= seeds[p[0]] + i
    {
      assert edge(p[i], p[i + 1]);
      i := i + 1;
    }
  }

  /** A measure that drops along every edge rules out every cycle. */
  lemma RankedIsAcyclic<V(!new)>(edge: (V, V) -> bool, rank: V -> int)
    requires forall v, w :: edge(v, w) ==> rank(w) < rank(v)
    ensures Acyclic(edge)
  {
    forall p ensures !IsCycle(edge, p) {
      if IsCycle(edge, p) {
        RankFalls(edge, rank, p);
      }
    }
  }

  lemma {:induction false} RankFalls<V(!new)>(edge: (V, V) -> bool, rank: V -> int, p: seq<V>)
    requires forall v, w :: edge(v, w) ==> rank(w) < rank(v)
    requires IsPath(edge, p) && |p| >= 2
    ensures rank(p[|p| - 1]) < rank(p[0])
  {
    var last := |p| - 1;
    assert edge(p[last - 1], p[last]);
    if last > 1 {
      RankFalls(edge, rank, p[..last]);
    }
  }

  /** The edges of both graphs. */
  ghost function Either<V(!new)>(e: (V, V) -> bool, f: (V, V) -> bool): (V, V) -> bool
  {
    (v, w) => e(v, w) || f(v, w)
  }

  /** Leaving edges out makes no cycle. */
  lemma FewerEdges<V(!new)>(more: (V, V) -> bool, fewer: (V, V) -> bool)
    requires Acyclic(more) && forall v, w :: fewer(v, w) ==> more(v, w)
    ensures Acyclic(fewer)
  {
    forall p ensures !IsCycle(fewer, p) {
      assert IsCycle(fewer, p) ==> IsCycle(more, p);
    }
  }

  /** Edges that never raise a measure, without a cycle of their own, stay
      without one when edges that always lower it are added. */
  lemma MixedIsAcyclic<V(!new)>(flat: (V, V) -> bool, down: (V, V) -> bool, rank: V -> int)
    requires Acyclic(flat)
    requires forall v, w :: flat(v, w) ==> rank(w) <= rank(v)
    requires forall v, w :: down(v, w) ==> rank(w) < rank(v)
    ensures Acyclic(Either(flat, down))
  {
    var edge := Either(flat, down);
    forall p ensures !IsCycle(edge, p) {
      if IsCycle(edge, p) {
        if forall i :: 0 <= i < |p| - 1 ==> flat(p[i], p[i + 1]) {
          assert IsCycle(flat, p);
        } else {
          var k :| 0 <= k < |p| - 1 && !flat(p[k], p[k + 1]);
          assert edge(p[k], p[k + 1]);
          NeverRises(edge, rank, p, 0, k);
          NeverRises(edge, rank, p, k + 1, |p| - 1);
        }
        assert false;
      }
    }
  }

  lemma {:induction false} NeverRises<V(!new)>(edge: (V, V) -> bool, rank: V -> int, p: seq<V>, i: nat, j: nat)
    requires forall v, w :: edge(v, w) ==> rank(w) <= rank(v)
    requires IsPath(edge, p) && i <= j < |p|
    ensures rank(p[j]) <= rank(p[i])
    decreases j
  {
    if i < j {
      NeverRises(edge, rank, p, i, j - 1);
      assert edge(p[j - 1], p[j - 1 + 1]);
    }
  }

  ghost predicate HasNext<V(!new)>(edge: (V, V) -> bool, within: set<V>, v: V)
  {
    exists w :: w in within && edge(v, w)
  }

  /** A nonempty finite set in which every vertex has a successor holds a cycle. */
  lemma StuckHasCycle<V(!new)>(edge: (V, V) -> bool, stuck: set<V>)
    requires stuck != {}
    requires forall v {:trigger HasNext(edge, stuck, v)} :: v in stuck ==> HasNext(edge, stuck, v)
    ensures !Acyclic(edge)
  {
    var start :| start in stuck;
    WalkOn(edge, stuck, [start], stuck - {start});
  }

  /** Extends a path inside `stuck` until it meets itself. */
  lemma {:induction false} WalkOn<V(!new)>(edge: (V, V) -> bool, stuck: set<V>, p: seq<V>, left: set<V>)
    requires forall v {:trigger HasNext(edge, stuck, v)} :: v in stuck ==> HasNext(edge, stuck, v)
    requires IsPath(edge, p) && p[|p| - 1] in stuck
    requires forall v :: v in stuck && v !in left ==> v in p
    ensures !Acyclic(edge)
    decreases left
  {
    var last := p[|p| - 1];
    assert HasNext(edge, stuck, last);
    var w :| w in stuck && edge(last, w);
    var q := p + [w];
    if w in left {
      WalkOn(edge, stuck, q, left - {w});
    } else {
      var k :| 0 <= k < |p| && p[k] == w;
      MeetsItself(edge, q, k);
    }
  }

  lemma MeetsItself<V(!new)>(edge: (V, V) -> bool, q: seq<V>, k: nat)
    requires IsPath(edge, q) && k < |q| - 1 && q[k] == q[|q| - 1]
    ensures !Acyclic(edge)
  {
    var c := q[k..];
    forall i | 0 <= i < |c| - 1 ensures edge(c[i], c[i + 1]) {
      assert edge(q[k + i], q[k + i + 1]);
    }
    assert IsCycle(edge, c);
  }
}
