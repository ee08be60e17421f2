/** The ancestry probes: is one commit an ancestor of another, which are the best
    common ancestors of two, and which candidates a commit's history reaches. */
module MergeBase {
  import opened Graphs
  import opened Bands
  import opened Schedule

  /** `a` is `d` or an ancestor of it. */
  ghost predicate Ancestor(g: Graph, a: int, d: int)
  {
    Reaches(Edge(g, {}), {d}, a)
  }

  lemma AncestorSelf(g: Graph, x: int)
    ensures Ancestor(g, x, x)
  {
    ReachSeed(Edge(g, {}), {x}, x);
  }

  lemma AncestorTrans(g: Graph, a: int, b: int, c: int)
    requires Ancestor(g, a, b) && Ancestor(g, b, c)
    ensures Ancestor(g, a, c)
  {
    ReachVia(g, {}, {c}, {b}, a);
  }

  lemma AncestorIsOlder(g: Graph, a: int, d: int)
    requires Descends(g) && Ancestor(g, a, d)
    ensures a <= d
  {
    ReachInduct(Edge(g, {}), {d}, v => v <= d, a);
  }

  /** Where what seeds reach first passes under a floor: at a seed, or at a parent of
      a commit reached at or above it. */
  ghost predicate Exits(g: Graph, seeds: set<int>, floor: int, x: int)
  {
    x < floor && (x in seeds || exists c :: c >= floor && Reaches(Edge(g, {}), seeds, c) && Edge(g, {})(c, x))
  }

  /** What seeds reach, cut at a floor: what the band visited, and what the
      commits left below it reach. */
  ghost predicate Cut(g: Graph, seeds: set<int>, floor: int, visited: set<int>, below: set<int>)
  {
    && (forall x :: Reaches(Edge(g, {}), seeds, x) <==> x in visited || Reaches(Edge(g, {}), below, x))
    && (forall x :: x in visited ==> x >= floor && Reaches(Edge(g, {}), seeds, x))
    && (forall x :: x in below ==> x < floor && Reaches(Edge(g, {}), seeds, x))
    && (forall x :: x >= floor && Reaches(Edge(g, {}), seeds, x) ==> x in visited)
    && (forall x :: x in below <==> Exits(g, seeds, floor, x))
    && (forall x :: x in visited ==> x in g)
  }

  lemma ReachBack<V(!new)>(edge: (V, V) -> bool, seeds: set<V>, x: V)
    requires Reaches(edge, seeds, x)
    ensures x in seeds || exists c :: Reaches(edge, seeds, c) && edge(c, x)
  {
    var p :| Leads(edge, seeds, p, x);
    if |p| > 1 {
      assert Leads(edge, seeds, p[..|p| - 1], p[|p| - 2]);
      assert edge(p[|p| - 2], p[|p| - 1]);
    }
  }

  /** What a band leaves below its floor is where its seeds' history passes under it. */
  lemma BandExits(g: Graph, seeds: set<int>, floor: int, ceil: int, visited: set<int>, x: int)
    requires Descends(g) && forall s :: s in seeds ==> s <= ceil
    requires var down := Down(Restrict(g, floor, ceil), floor, {}, {});
      forall y :: y in visited <==> y >= floor && Reaches(down, seeds, y)
    requires forall y :: y >= floor && Reaches(Edge(g, {}), seeds, y) ==> y in visited
    ensures var down := Down(Restrict(g, floor, ceil), floor, {}, {});
      x < floor && Reaches(down, seeds, x) <==> Exits(g, seeds, floor, x)
  {
    hide Reaches;
    var down := Down(Restrict(g, floor, ceil), floor, {}, {});
    if x < floor && Reaches(down, seeds, x) {
      ReachBack(down, seeds, x);
      if x !in seeds {
        var c :| Reaches(down, seeds, c) && down(c, x);
        BandEdge(g, floor, ceil, {}, {}, c, x);
        BandReach(g, floor, ceil, {}, {}, seeds, c);
      }
    }
    if Exits(g, seeds, floor, x) {
      if x in seeds {
        ReachSeed(down, seeds, x);
      } else {
        var c :| c >= floor && Reaches(Edge(g, {}), seeds, c) && Edge(g, {})(c, x);
        assert c in visited;
        BandReach(g, floor, ceil, {}, {}, seeds, c);
        BandEdge(g, floor, ceil, {}, {}, c, x);
        ReachStep(down, seeds, c, x);
      }
    }
  }

  /** One band's expansion cuts the history its seeds reach. */
  lemma BandCuts(g: Graph, seeds: set<int>, floor: int, ceil: int, visited: set<int>, below: set<int>)
    requires Descends(g) && forall s :: s in seeds ==> s <= ceil
    requires var down := Down(Restrict(g, floor, ceil), floor, {}, {});
      && (forall x :: x in visited <==> x >= floor && Reaches(down, seeds, x))
      && (forall x :: x in below <==> x < floor && Reaches(down, seeds, x))
    requires forall x :: x in visited ==> x in g
    ensures Cut(g, seeds, floor, visited, below)
  {
    hide Reaches;
    var edge := Edge(g, {});
    var down := Down(Restrict(g, floor, ceil), floor, {}, {});
    forall x | x in visited || x in below ensures x <= ceil && Reaches(edge, seeds, x) {
      BandReach(g, floor, ceil, {}, {}, seeds, x);
    }
    var inv := v => v in visited || Reaches(edge, below, v);
    forall s | s in seeds ensures inv(s) {
      ReachSeed(down, seeds, s);
      if s < floor { ReachSeed(edge, below, s); }
    }
    forall c, p | inv(c) && edge(c, p) ensures inv(p) {
      if c in visited {
        BandEdge(g, floor, ceil, {}, {}, c, p);
        ReachStep(down, seeds, c, p);
        if p < floor { ReachSeed(edge, below, p); }
      } else {
        ReachStep(edge, below, c, p);
      }
    }
    forall x | Reaches(edge, seeds, x) ensures inv(x) {
      ReachInduct(edge, seeds, inv, x);
    }
    forall x | Reaches(edge, below, x) ensures Reaches(edge, seeds, x) && x < floor {
      ReachVia(g, {}, seeds, below, x);
      BelowStaysBelow(g, below, floor, x);
    }
    forall x ensures x in below <==> Exits(g, seeds, floor, x) {
      BandExits(g, seeds, floor, ceil, visited, x);
    }
  }

  lemma BelowStaysBelow(g: Graph, below: set<int>, floor: int, x: int)
    requires Descends(g) && (forall s :: s in below ==> s < floor) && Reaches(Edge(g, {}), below, x)
    ensures x < floor
  {
    ReachInduct(Edge(g, {}), below, v => v < floor, x);
  }

  /** One band of ancestry over the whole graph, read once from `floor` up. */
  method ExpandAncestorBand(g: Graph, seeds: set<int>, floor: int) returns (r: Outcome<(set<int>, set<int>)>)
    requires Descends(g) && seeds != {}
    ensures r.Ok? ==> Cut(g, seeds, floor, r.value.0, r.value.1)
    ensures r.NotCovered? ==> r.at !in g && r.at >= r.floor && Reaches(Edge(g, {}), seeds, r.at)
  {
    hide Reaches;
    var top := Greatest(seeds);
    var ceil := if top < floor then floor else top;
    var from := InOrder(seeds);
    r := ExpandAncestors(Restrict(g, floor, ceil), from, floor);
    if r.Ok? {
      BandCuts(g, seeds, floor, ceil, r.value.0, r.value.1);
    } else {
      BandReach(g, floor, ceil, {}, {}, seeds, r.at);
    }
  }

  /** Git's `--is-ancestor`, floored at the candidate: a path that drops below
      it without meeting it never will. */
  method BandedIsAncestor(g: Graph, ancestor: int, descendant: int, policy: BandPolicy) returns (r: Outcome<bool>)
    requires Descends(g) && policy.Valid()
    ensures r.Ok? ==> (r.value <==> Ancestor(g, ancestor, descendant))
    ensures r == Ok(false) && ancestor <= descendant ==>
      forall x :: Ancestor(g, x, descendant) && x >= ancestor ==> x in g
    ensures r.NotCovered? ==> r.at !in g && r.at >= r.floor && Ancestor(g, r.at, descendant)
    ensures Closed(g) && descendant in g ==> r.Ok?
  {
    hide Reaches;
    AllCovered(g, {}, {descendant});
    if ancestor == descendant {
      AncestorSelf(g, ancestor);
      return Ok(true);
    }
    if ancestor > descendant {
      if Ancestor(g, ancestor, descendant) { AncestorIsOlder(g, ancestor, descendant); }
      return Ok(false);
    }
    ghost var edge := Edge(g, {});
    ghost var from := {descendant};
    var band := policy;
    var frontier := {descendant};
    ghost var names := Names(g, from);
    ghost var top := descendant + 1;
    AncestorSelf(g, descendant);
    while frontier != {}
      invariant band.Valid()
      invariant forall x :: x in frontier ==> x < top
      invariant forall x :: x in frontier ==> Reaches(edge, from, x)
      invariant Ancestor(g, ancestor, descendant) <==> Reaches(edge, frontier, ancestor)
      invariant forall x :: Ancestor(g, x, descendant) ==> x in g || Reaches(edge, frontier, x)
      decreases Under(names, top)
    {
      var ceil := Greatest(frontier);
      var low := ceil - (band.current - 1);
      var floor := if low < ancestor then ancestor else low;
      var cut := ExpandAncestorBand(g, frontier, floor);
      if cut.NotCovered? {
          ReachVia(g, {}, from, frontier, cut.at);
        return NotCovered(cut.at, cut.floor);
      }
      var (visited, below) := cut.value;
      if ancestor in visited {
        return Ok(true);
      }
      if floor <= ancestor {
        forall x | Reaches(edge, below, x) ensures x < ancestor { BelowStaysBelow(g, below, floor, x); }
        return Ok(false);
      }
      forall x | x in below ensures Reaches(edge, from, x) {
        ReachVia(g, {}, from, frontier, x);
      }
      ReachedIsNamed(g, {}, from, ceil);
      UnderFalls(names, top, ceil, floor);
      frontier, top, band := below, floor, band.Grow();
    }
    forall x ensures !Reaches(edge, frontier, x) { NothingFromNothing(edge, x); }
    r := Ok(false);
  }

  /** Newest first. */
  ghost predicate NewestFirst(q: seq<int>)
  {
    forall i, j :: 0 <= i < j < |q| ==> q[i] > q[j]
  }

  method SortNewestFirst(s: set<int>) returns (q: seq<int>)
    ensures NewestFirst(q) && AsSet(q) == s
  {
    q := [];
    var rest := s;
    while rest != {}
      invariant rest <= s
      invariant NewestFirst(q)
      invariant AsSet(q) == s - rest
      invariant forall x, y :: x in AsSet(q) && y in rest ==> x > y
      decreases rest
    {
      var m := Greatest(rest);
      assert forall i :: 0 <= i < |q| ==> q[i] in AsSet(q);
      AsSetAppend(q, m);
      q := q + [m];
      rest := rest - {m};
    }
  }

  /** No other member of `common` has `x` as an ancestor. */
  ghost predicate Maximal(g: Graph, common: set<int>, x: int)
  {
    x in common && forall y :: y in common && Ancestor(g, x, y) ==> y == x
  }

  /** Some base already taken reaches `x`. */
  ghost predicate Dominated(g: Graph, bases: seq<int>, x: int)
  {
    exists b :: b in bases && Ancestor(g, x, b)
  }

  /** A candidate nothing taken dominates is maximal: whatever is newer is
      itself dominated. */
  lemma UndominatedIsMaximal(g: Graph, q: seq<int>, i: nat, bases: seq<int>)
    requires Descends(g) && NewestFirst(q) && i < |q|
    requires forall y :: y in q[..i] ==> Dominated(g, bases, y)
    requires !Dominated(g, bases, q[i])
    ensures Maximal(g, AsSet(q), q[i])
  {
    hide Reaches;
    forall y | y in AsSet(q) && Ancestor(g, q[i], y) ensures y == q[i] {
      AncestorIsOlder(g, q[i], y);
      var k :| 0 <= k < |q| && q[k] == y;
      if k < i {
        assert q[..i][k] == y;
        assert y in q[..i] && Dominated(g, bases, y);
        var b :| b in bases && Ancestor(g, y, b);
        AncestorTrans(g, q[i], y, b);
        assert false;
      }
    }
  }

  lemma DominatedMore(g: Graph, bases: seq<int>, b: int, x: int)
    ensures Dominated(g, bases + [b], x) <==> Dominated(g, bases, x) || Ancestor(g, x, b)
  {
    hide Reaches;
    if Ancestor(g, x, b) {
      assert b in bases + [b];
    }
    if Dominated(g, bases, x) {
      var c :| c in bases && Ancestor(g, x, c);
      assert c in bases + [b];
    }
  }

  /** Where the search for maximal members stands: of the first `i` candidates
      all are dominated, the bases are maximal, and `left` is what remains. */
  ghost predicate Sifting(g: Graph, q: seq<int>, i: nat, bases: seq<int>, left: set<int>)
    requires i <= |q|
  {
    && (forall y :: y in q[..i] ==> Dominated(g, bases, y))
    && (forall y :: y in left <==> y in q[i..] && !Dominated(g, bases, y))
    && (forall b :: b in bases ==> Maximal(g, AsSet(q), b))
  }

  lemma SiftSkip(g: Graph, q: seq<int>, i: nat, bases: seq<int>, left: set<int>)
    requires NewestFirst(q) && i < |q| && Sifting(g, q, i, bases, left) && q[i] !in left
    ensures Sifting(g, q, i + 1, bases, left)
  {
    hide Dominated;
    hide Maximal;
    assert q[i..] == [q[i]] + q[i + 1..];
    assert q[..i + 1] == q[..i] + [q[i]];
  }

  lemma SiftTake(g: Graph, q: seq<int>, i: nat, bases: seq<int>, left: set<int>, left': set<int>)
    requires Descends(g) && NewestFirst(q) && i < |q| && Sifting(g, q, i, bases, left) && q[i] in left
    requires forall y :: y in left' <==> y in left && y != q[i] && !Ancestor(g, y, q[i])
    ensures Sifting(g, q, i + 1, bases + [q[i]], left')
  {
    hide Reaches;
    hide Dominated;
    assert q[i..] == [q[i]] + q[i + 1..];
    assert q[..i + 1] == q[..i] + [q[i]];
    AncestorSelf(g, q[i]);
    forall y ensures Dominated(g, bases + [q[i]], y) <==> Dominated(g, bases, y) || Ancestor(g, y, q[i]) {
      DominatedMore(g, bases, q[i], y);
    }
    UndominatedIsMaximal(g, q, i, bases);
    assert q[i] !in q[i + 1..];
  }

  /** Nothing left: whatever was not yet looked at is dominated. */
  lemma SiftEmpty(g: Graph, q: seq<int>, i: nat, bases: seq<int>)
    requires i <= |q| && Sifting(g, q, i, bases, {})
    ensures Sifting(g, q, |q|, bases, {})
  {
    hide Dominated;
    hide Maximal;
    assert q == q[..i] + q[i..];
    assert q[..|q|] == q && q[|q|..] == [];
  }

  /** Once all are sifted, the bases are exactly the maximal members. */
  lemma SiftDone(g: Graph, q: seq<int>, bases: seq<int>, left: set<int>, x: int)
    requires Sifting(g, q, |q|, bases, left)
    ensures x in bases <==> Maximal(g, AsSet(q), x)
  {
    hide Reaches;
    assert q[..|q|] == q;
    if Maximal(g, AsSet(q), x) {
      var b :| b in bases && Ancestor(g, x, b);
    }
  }

  /** The maximal members of `common` by ancestry, in decreasing order. */
  method FindMaximal(g: Graph, common: set<int>) returns (r: Outcome<seq<int>>)
    requires Descends(g)
    ensures r.Ok? ==> NewestFirst(r.value) && forall x :: x in r.value <==> Maximal(g, common, x)
    ensures r.NotCovered? ==> r.at !in g && r.at >= r.floor && Reaches(Edge(g, {}), common, r.at)
  {
    hide Reaches;
    hide Dominated;
    hide Maximal;
    var q := SortNewestFirst(common);
    var left := common;
    var bases: seq<int> := [];
    SiftStart(g, q);
    var i := 0;
    while i < |q|
      invariant 0 <= i <= |q|
      invariant Sifting(g, q, i, bases, left)
      invariant NewestFirst(bases) && forall b :: b in bases ==> b in q[..i]
    {
      var top := q[i];
      assert q[..i + 1] == q[..i] + [top];
      if top !in left {
        SiftSkip(g, q, i, bases, left);
        i := i + 1;
        continue;
      }
      var rest := left - {top};
      var visited: set<int> := {};
      if rest != {} {
        var floor := Least(rest);
        var cut := ExpandAncestorBand(g, {top}, floor);
        if cut.NotCovered? {
          ReachSeed(Edge(g, {}), common, top);
          ReachVia(g, {}, common, {top}, cut.at);
          return NotCovered(cut.at, cut.floor);
        }
        visited := cut.value.0;
        forall y | y in rest ensures y in visited <==> Ancestor(g, y, top) { }
      }
      SiftTake(g, q, i, bases, left, rest - visited);
      AppendOlder(q, i, bases);
      bases, left, i := bases + [top], rest - visited, i + 1;
      if left == {} {
        SiftEmpty(g, q, i, bases);
        assert q[..|q|] == q;
        i := |q|;
      }
    }
    forall x ensures x in bases <==> Maximal(g, common, x) {
      SiftDone(g, q, bases, left, x);
    }
    r := Ok(bases);
  }

  lemma SiftStart(g: Graph, q: seq<int>)
    ensures Sifting(g, q, 0, [], AsSet(q))
  {
    assert q[0..] == q && q[..0] == [];
  }

  lemma AppendOlder(q: seq<int>, i: nat, bases: seq<int>)
    requires NewestFirst(q) && i < |q| && NewestFirst(bases)
    requires forall b :: b in bases ==> b in q[..i]
    ensures NewestFirst(bases + [q[i]])
  {
    forall k | 0 <= k < |bases| ensures bases[k] > q[i] {
      assert bases[k] in bases;
      var j :| 0 <= j < i && q[..i][j] == bases[k];
    }
  }

  /** `x` is an ancestor of both. */
  ghost predicate Common(g: Graph, a: int, b: int, x: int)
  {
    Ancestor(g, x, a) && Ancestor(g, x, b)
  }

  /** A best common ancestor: no other common ancestor reaches it. */
  ghost predicate Best(g: Graph, a: int, b: int, x: int)
  {
    Common(g, a, b, x) && forall y :: Common(g, a, b, y) && Ancestor(g, x, y) ==> y == x
  }

  /** One side of a merge-base walk: what it has reached, frontier included,
      and that anything else it could reach lies behind the frontier. */
  ghost predicate Side(g: Graph, tip: int, floor: int, frontier: set<int>, reach: set<int>)
  {
    && (forall x :: x in reach ==> Ancestor(g, x, tip))
    && (forall x :: x in frontier ==> x in reach && x < floor)
    && (forall x :: Ancestor(g, x, tip) && x !in reach ==> Reaches(Edge(g, {}), frontier, x))
  }

  /** The history of `tip` down to `floor`: its ancestors there and above, and those
      where it passes under. */
  ghost predicate DownTo(g: Graph, tip: int, floor: int, x: int)
  {
    (x >= floor && Ancestor(g, x, tip)) || Exits(g, {tip}, floor, x)
  }

  /** One side holds exactly its tip's history down to the floor, and its frontier
      exactly what of that lies under it. */
  ghost predicate SideIs(g: Graph, tip: int, floor: int, frontier: set<int>, reach: set<int>)
  {
    && (forall x :: x in reach <==> DownTo(g, tip, floor, x))
    && (forall x :: x in frontier <==> Exits(g, {tip}, floor, x))
  }

  /** The tip's history down to the floor is all in the graph. */
  ghost predicate HeldTo(g: Graph, tip: int, floor: int)
  {
    forall x :: x >= floor && Ancestor(g, x, tip) ==> x in g
  }

  lemma HeldFurther(g: Graph, tip: int, was: int, floor: int, frontier: set<int>, reach: set<int>, visited: set<int>)
    requires SideIs(g, tip, was, frontier, reach) && HeldTo(g, tip, was)
    requires forall x :: x in visited ==> x in g
    requires forall x :: floor <= x && Reaches(Edge(g, {}), frontier, x) ==> x in visited
    ensures HeldTo(g, tip, floor)
  {
    hide Reaches;
    SideIsSide(g, tip, was, frontier, reach);
  }

  lemma ExitsIsAncestor(g: Graph, tip: int, floor: int, x: int)
    requires Exits(g, {tip}, floor, x)
    ensures Ancestor(g, x, tip)
  {
    hide Reaches;
    if x == tip {
      AncestorSelf(g, tip);
    } else {
      var c :| c >= floor && Reaches(Edge(g, {}), {tip}, c) && Edge(g, {})(c, x);
      ReachStep(Edge(g, {}), {tip}, c, x);
    }
  }

  /** So whatever it does not hold lies behind its frontier. */
  lemma SideIsSide(g: Graph, tip: int, floor: int, frontier: set<int>, reach: set<int>)
    requires SideIs(g, tip, floor, frontier, reach)
    ensures Side(g, tip, floor, frontier, reach)
    ensures forall x :: Ancestor(g, x, tip) && x < floor ==> Reaches(Edge(g, {}), frontier, x)
  {
    hide Reaches;
    var edge := Edge(g, {});
    forall x | x in reach ensures Ancestor(g, x, tip) {
      if Exits(g, {tip}, floor, x) { ExitsIsAncestor(g, tip, floor, x); }
    }
    var inv := v => (v >= floor && Ancestor(g, v, tip)) || Reaches(edge, frontier, v);
    AncestorSelf(g, tip);
    if tip < floor {
      assert Exits(g, {tip}, floor, tip);
      ReachSeed(edge, frontier, tip);
    }
    forall c, p | inv(c) && edge(c, p) ensures inv(p) {
      if c >= floor && Ancestor(g, c, tip) {
        ReachStep(edge, {tip}, c, p);
        if p < floor {
          assert Exits(g, {tip}, floor, p);
          ReachSeed(edge, frontier, p);
        }
      } else {
        ReachStep(edge, frontier, c, p);
      }
    }
    forall x | Ancestor(g, x, tip) ensures inv(x) { ReachInduct(edge, {tip}, inv, x); }
  }

  /** A frontier wholly under a lower floor is already what lies under it. */
  lemma SideSkips(g: Graph, tip: int, was: int, floor: int, frontier: set<int>, reach: set<int>)
    requires Descends(g) && SideIs(g, tip, was, frontier, reach) && floor <= was
    requires forall x :: x in frontier ==> x < floor
    ensures SideIs(g, tip, floor, frontier, reach)
    ensures HeldTo(g, tip, was) ==> HeldTo(g, tip, floor)
  {
    hide Reaches;
    SideIsSide(g, tip, was, frontier, reach);
    forall x | x >= floor && Ancestor(g, x, tip) ensures x >= was {
      if x < was { BelowStaysBelow(g, frontier, floor, x); }
    }
    forall x ensures Exits(g, {tip}, floor, x) <==> Exits(g, {tip}, was, x) {
      if Exits(g, {tip}, was, x) { assert x in frontier; }
      if Exits(g, {tip}, floor, x) && x != tip {
        var c :| c >= floor && Reaches(Edge(g, {}), {tip}, c) && Edge(g, {})(c, x);
        assert Ancestor(g, c, tip);
      }
    }
  }

  /** Expanding the frontier carries the side down. */
  lemma SideDescends(g: Graph, tip: int, was: int, floor: int, frontier: set<int>, reach: set<int>,
                     visited: set<int>, below: set<int>)
    requires Descends(g) && SideIs(g, tip, was, frontier, reach) && floor <= was
    requires Cut(g, frontier, floor, visited, below)
    ensures SideIs(g, tip, floor, below, reach + visited + below)
  {
    hide Reaches;
    SideIsSide(g, tip, was, frontier, reach);
    forall x | Reaches(Edge(g, {}), frontier, x) ensures Ancestor(g, x, tip) { ReachVia(g, {}, {tip}, frontier, x); }
    forall x ensures x in below <==> Exits(g, {tip}, floor, x) {
      ExitsDescend(g, tip, was, floor, frontier, x);
    }
    forall x ensures x in reach + visited + below <==> DownTo(g, tip, floor, x) {
      if x in reach && x < was {
        assert x in frontier;
        ExitsIsAncestor(g, tip, was, x);
        if x < floor { assert Exits(g, frontier, floor, x); }
      }
    }
  }

  lemma ExitsDescend(g: Graph, tip: int, was: int, floor: int, frontier: set<int>, x: int)
    requires Descends(g) && floor <= was
    requires forall y :: y in frontier <==> Exits(g, {tip}, was, y)
    requires forall y :: Ancestor(g, y, tip) && y < was ==> Reaches(Edge(g, {}), frontier, y)
    requires forall y :: Reaches(Edge(g, {}), frontier, y) ==> Ancestor(g, y, tip)
    ensures Exits(g, frontier, floor, x) <==> Exits(g, {tip}, floor, x)
  {
    hide Reaches;
    var edge := Edge(g, {});
    if Exits(g, frontier, floor, x) {
      if x in frontier {
        assert Exits(g, {tip}, was, x);
      } else {
        var c :| c >= floor && Reaches(edge, frontier, c) && edge(c, x);
        assert Ancestor(g, c, tip);
      }
    }
    if Exits(g, {tip}, floor, x) {
      if x == tip {
        assert x in frontier;
      } else {
        var c :| c >= floor && Reaches(edge, {tip}, c) && edge(c, x);
        assert Ancestor(g, c, tip);
        if c >= was {
          assert x in frontier;
        }
      }
    }
  }

  /** Expands one side down to `floor`, unless its frontier is already below it. */
  method MergeBaseSide(g: Graph, tip: int, ghost was: int, floor: int, frontier: set<int>, reach: set<int>)
    returns (r: Outcome<(set<int>, set<int>)>)
    requires Descends(g) && SideIs(g, tip, was, frontier, reach) && floor <= was
    ensures r.Ok? ==> SideIs(g, tip, floor, r.value.0, r.value.1)
    ensures r.Ok? && HeldTo(g, tip, was) ==> HeldTo(g, tip, floor)
    ensures r.NotCovered? ==> r.at !in g && r.at >= r.floor && Ancestor(g, r.at, tip)
  {
    hide Reaches, SideIs, Cut, HeldTo;
    if forall x :: x in frontier ==> x < floor {
      SideSkips(g, tip, was, floor, frontier, reach);
      return Ok((frontier, reach));
    }
    var cut := ExpandAncestorBand(g, frontier, floor);
    if cut.NotCovered? {
      SideIsSide(g, tip, was, frontier, reach);
      ReachVia(g, {}, {tip}, frontier, cut.at);
      return NotCovered(cut.at, cut.floor);
    }
    var (visited, below) := cut.value;
    SideDescends(g, tip, was, floor, frontier, reach, visited, below);
    if HeldTo(g, tip, was) {
      CutHolds(g, frontier, floor, visited, below);
      HeldFurther(g, tip, was, floor, frontier, reach, visited);
    }
    r := Ok((below, reach + visited + below));
  }

  /** A common ancestor one side has not collected lies behind a frontier
      commit, and is older than it. */
  lemma BehindFrontier(g: Graph, tip: int, floor: int, frontier: set<int>, reach: set<int>, x: int)
    returns (f: int)
    requires Descends(g) && Side(g, tip, floor, frontier, reach)
    requires Ancestor(g, x, tip) && x !in reach
    ensures f in frontier && Ancestor(g, x, f) && f != x
  {
    var p :| Leads(Edge(g, {}), frontier, p, x);
    f := p[0];
    assert Leads(Edge(g, {}), {f}, p, x);
  }

  /** When each frontier is already common, nothing maximal lies below: the
      maximal members collected are the best common ancestors. */
  lemma MaximalIsBest(g: Graph, a: int, b: int, floor: int, fa: set<int>, fb: set<int>, ra: set<int>, rb: set<int>,
                      x: int)
    requires Descends(g) && Side(g, a, floor, fa, ra) && Side(g, b, floor, fb, rb)
    requires fa <= rb && fb <= ra
    ensures Maximal(g, ra * rb, x) <==> Best(g, a, b, x)
  {
    hide Reaches;
    if Maximal(g, ra * rb, x) {
      forall y | Common(g, a, b, y) && Ancestor(g, x, y) ensures y == x {
        if y !in ra * rb {
          var f := Above(g, a, b, floor, fa, fb, ra, rb, y);
          AncestorTrans(g, x, y, f);
          AncestorIsOlder(g, x, y);
          AncestorIsOlder(g, y, f);
        }
      }
    }
    if Best(g, a, b, x) {
      if x !in ra * rb {
        var f := Above(g, a, b, floor, fa, fb, ra, rb, x);
        assert false;
      }
      forall y | y in ra * rb && Ancestor(g, x, y) ensures y == x {
        assert Common(g, a, b, y);
      }
    }
  }

  lemma Above(g: Graph, a: int, b: int, floor: int, fa: set<int>, fb: set<int>, ra: set<int>, rb: set<int>, y: int)
    returns (f: int)
    requires Descends(g) && Side(g, a, floor, fa, ra) && Side(g, b, floor, fb, rb)
    requires fa <= rb && fb <= ra
    requires Common(g, a, b, y) && y !in ra * rb
    ensures f in ra * rb && Ancestor(g, y, f) && f != y
  {
    hide Reaches;
    if y !in ra {
      f := BehindFrontier(g, a, floor, fa, ra, y);
    } else {
      f := BehindFrontier(g, b, floor, fb, rb, y);
    }
  }

  lemma CutHolds(g: Graph, seeds: set<int>, floor: int, visited: set<int>, below: set<int>)
    requires Cut(g, seeds, floor, visited, below)
    ensures forall x :: x in visited ==> x in g
    ensures forall x :: floor <= x && Reaches(Edge(g, {}), seeds, x) ==> x in visited
  {
    hide Reaches;
  }

  lemma SideStart(g: Graph, tip: int, floor: int)
    requires Descends(g) && tip < floor
    ensures SideIs(g, tip, floor, {tip}, {tip}) && HeldTo(g, tip, floor)
  {
    hide Reaches;
    forall x | Ancestor(g, x, tip) ensures x < floor { AncestorIsOlder(g, x, tip); }
    forall x | Exits(g, {tip}, floor, x) ensures x == tip {
      if x != tip {
        var c :| c >= floor && Reaches(Edge(g, {}), {tip}, c) && Edge(g, {})(c, x);
        AncestorIsOlder(g, c, tip);
      }
    }
  }

  // -------------------------------------------------------- how a walk stops

  /** All that is left of either side to explore is the other's already. */
  ghost predicate Met(g: Graph, a: int, b: int, floor: int)
  {
    forall x ::
      && (Exits(g, {a}, floor, x) ==> DownTo(g, b, floor, x))
      && (Exits(g, {b}, floor, x) ==> DownTo(g, a, floor, x))
  }

  ghost predicate Reached(g: Graph, tip: int, floor: int, s: set<int>)
  {
    forall x :: x in s <==> DownTo(g, tip, floor, x)
  }

  /** The two histories down to the floor hold more commits than the budget. */
  ghost predicate Spent(g: Graph, a: int, b: int, floor: int, maxCommits: nat)
  {
    exists s, t :: Reached(g, a, floor, s) && Reached(g, b, floor, t) && |s| + |t| > maxCommits
  }

  /** The newest commit left to explore under `top`. */
  ghost predicate Newest(g: Graph, a: int, b: int, top: int, ceil: int)
  {
    && (Exits(g, {a}, top, ceil) || Exits(g, {b}, top, ceil))
    && forall x :: Exits(g, {a}, top, x) || Exits(g, {b}, top, x) ==> x <= ceil
  }

  ghost function Later(policy: BandPolicy, k: nat): BandPolicy
  {
    if k == 0 then policy else Later(policy, k - 1).Grow()
  }

  /** Where band `k` starts: above both tips, then at the floor of the band before. */
  ghost function TopOf(a: int, b: int, floors: seq<int>, k: nat): int
    requires k <= |floors|
  {
    if k > 0 then floors[k - 1] else if a < b then b + 1 else a + 1
  }

  /** The floors of successive bands: each is as far under the newest commit left as the schedule says. */
  ghost predicate Floors(g: Graph, a: int, b: int, policy: BandPolicy, floors: seq<int>)
  {
    forall k :: 0 <= k < |floors| ==>
      Newest(g, a, b, TopOf(a, b, floors, k), floors[k] + (Later(policy, k).current - 1))
  }

  /** A walk goes on exactly while the sides have not met and the budget is not spent,
      and is exhausted exactly if it stopped for the budget. */
  ghost predicate Stops(g: Graph, a: int, b: int, policy: BandPolicy, maxCommits: nat, floors: seq<int>,
                        exhausted: bool)
  {
    && |floors| > 0 && Floors(g, a, b, policy, floors)
    && (forall k :: 0 <= k < |floors| - 1 ==> !Met(g, a, b, floors[k]) && !Spent(g, a, b, floors[k], maxCommits))
    && var last := floors[|floors| - 1];
    if exhausted then !Met(g, a, b, last) && Spent(g, a, b, last, maxCommits) else Met(g, a, b, last)
  }

  /** Of what both histories hold down to a floor, one no other reaches. */
  ghost predicate BestDownTo(g: Graph, a: int, b: int, floor: int, x: int)
  {
    && DownTo(g, a, floor, x) && DownTo(g, b, floor, x)
    && forall y :: DownTo(g, a, floor, y) && DownTo(g, b, floor, y) && Ancestor(g, x, y) ==> y == x
  }

  lemma SidesSay(g: Graph, a: int, b: int, floor: int, fa: set<int>, fb: set<int>, ra: set<int>, rb: set<int>,
                 maxCommits: nat)
    requires SideIs(g, a, floor, fa, ra) && SideIs(g, b, floor, fb, rb)
    ensures Met(g, a, b, floor) <==> fa <= rb && fb <= ra
    ensures Spent(g, a, b, floor, maxCommits) <==> |ra| + |rb| > maxCommits
    ensures forall x :: BestDownTo(g, a, b, floor, x) <==> Maximal(g, ra * rb, x)
  {
    hide Exits, DownTo, Ancestor;
    if Met(g, a, b, floor) {
      forall x | x in fa ensures x in rb { assert Exits(g, {a}, floor, x); }
      forall x | x in fb ensures x in ra { assert Exits(g, {b}, floor, x); }
    }
    assert Reached(g, a, floor, ra) && Reached(g, b, floor, rb);
    if Spent(g, a, b, floor, maxCommits) {
      var s, t :| Reached(g, a, floor, s) && Reached(g, b, floor, t) && |s| + |t| > maxCommits;
      SameReached(g, a, floor, s, ra);
      SameReached(g, b, floor, t, rb);
    }
    forall x ensures BestDownTo(g, a, b, floor, x) <==> Maximal(g, ra * rb, x) {
      assert x in ra * rb <==> DownTo(g, a, floor, x) && DownTo(g, b, floor, x);
      assert forall y :: y in ra * rb <==> DownTo(g, a, floor, y) && DownTo(g, b, floor, y);
    }
  }

  lemma SameReached(g: Graph, tip: int, floor: int, s: set<int>, t: set<int>)
    requires Reached(g, tip, floor, s) && Reached(g, tip, floor, t)
    ensures s == t
  {
    hide DownTo;
    forall x ensures x in s <==> x in t { assert x in s <==> DownTo(g, tip, floor, x); }
  }

  lemma NoFloors(g: Graph, a: int, b: int, policy: BandPolicy)
    ensures Floors(g, a, b, policy, [])
  {
  }

  lemma FloorsGrow(g: Graph, a: int, b: int, policy: BandPolicy, floors: seq<int>, floor: int)
    requires Floors(g, a, b, policy, floors)
    requires Newest(g, a, b, TopOf(a, b, floors, |floors|), floor + (Later(policy, |floors|).current - 1))
    ensures Floors(g, a, b, policy, floors + [floor])
  {
    hide Newest, Later;
    var more := floors + [floor];
    forall k | 0 <= k < |more|
      ensures Newest(g, a, b, TopOf(a, b, more, k), more[k] + (Later(policy, k).current - 1))
    {
      assert TopOf(a, b, more, k) == TopOf(a, b, floors, k);
    }
  }

  /** The two have more ancestors between them than the budget, shared ones counted twice. */
  ghost predicate OverBudget(g: Graph, a: int, b: int, maxCommits: nat)
  {
    forall s: set<int>, t: set<int> :: HoldsAncestors(g, a, s) && HoldsAncestors(g, b, t) ==> |s| + |t| > maxCommits
  }

  ghost predicate HoldsAncestors(g: Graph, tip: int, s: set<int>)
  {
    forall x :: Ancestor(g, x, tip) ==> x in s
  }

  lemma ExhaustedIsOver(g: Graph, a: int, b: int, policy: BandPolicy, maxCommits: nat, floors: seq<int>)
    requires Stops(g, a, b, policy, maxCommits, floors, true)
    ensures OverBudget(g, a, b, maxCommits)
  {
    hide Stops, Ancestor;
    forall s: set<int>, t: set<int> | HoldsAncestors(g, a, s) && HoldsAncestors(g, b, t)
      ensures |s| + |t| > maxCommits
    {
      WithinBudget(g, a, b, policy, maxCommits, floors, s, t);
    }
  }

  /** If all the ancestors of both fit the budget, no walk is exhausted. */
  lemma WithinBudget(g: Graph, a: int, b: int, policy: BandPolicy, maxCommits: nat, floors: seq<int>, s: set<int>,
                     t: set<int>)
    requires Stops(g, a, b, policy, maxCommits, floors, true)
    requires forall x :: Ancestor(g, x, a) ==> x in s
    requires forall x :: Ancestor(g, x, b) ==> x in t
    ensures |s| + |t| > maxCommits
  {
    hide Reaches, Floors, Met;
    var last := floors[|floors| - 1];
    var u, v :| Reached(g, a, last, u) && Reached(g, b, last, v) && |u| + |v| > maxCommits;
    forall x | x in u ensures x in s { if x < last { ExitsIsAncestor(g, a, last, x); } }
    forall x | x in v ensures x in t { if x < last { ExitsIsAncestor(g, b, last, x); } }
    Smaller(u, s);
    Smaller(v, t);
  }

  lemma Smaller(u: set<int>, s: set<int>)
    requires u <= s
    ensures |u| <= |s|
  {
    assert s == u + (s - u);
  }

  /** All best common ancestors, in decreasing order; if the budget ran out, the best
      of those met down to the floor both sides had got to. */
  method BandedMergeBases(g: Graph, a: int, b: int, policy: BandPolicy, maxCommits: nat)
    returns (r: Outcome<(seq<int>, bool)>)
    requires Descends(g) && policy.Valid()
    ensures r.Ok? ==> NewestFirst(r.value.0)
    ensures r.Ok? && !r.value.1 ==> forall x :: x in r.value.0 <==> Best(g, a, b, x)
    ensures r.Ok? ==> forall x :: x in r.value.0 ==> Common(g, a, b, x)
    ensures r.Ok? ==> forall x, y :: x in r.value.0 && y in r.value.0 && Ancestor(g, x, y) ==> x == y
    ensures r.Ok? && a == b ==> r.value == ([a], false)
    ensures r.Ok? && r.value.1 ==> OverBudget(g, a, b, maxCommits)
    ensures r.Ok? && a != b ==> exists floors ::
      && Stops(g, a, b, policy, maxCommits, floors, r.value.1)
      && (forall x :: x in r.value.0 <==> BestDownTo(g, a, b, floors[|floors| - 1], x))
      && HeldTo(g, a, floors[|floors| - 1]) && HeldTo(g, b, floors[|floors| - 1])
    ensures r.NotCovered? ==> r.at !in g && r.at >= r.floor && (Ancestor(g, r.at, a) || Ancestor(g, r.at, b))
    ensures Closed(g) && a in g && b in g ==> r.Ok?
  {
    hide Reaches, SideIs, HeldTo, Met, Spent, Newest, BestDownTo, Floors;
    AllCovered(g, {}, {a});
    AllCovered(g, {}, {b});
    if a == b {
      SelfIsBest(g, a);
      return Ok(([a], false));
    }
    var reachA, reachB, frontierA, frontierB := {a}, {b}, {a}, {b};
    ghost var floors: seq<int> := [];
    ghost var top := TopOf(a, b, floors, 0);
    ghost var names := Names(g, {a, b});
    NoFloors(g, a, b, policy);
    SideStart(g, a, top);
    SideStart(g, b, top);
    var band := policy;
    var exhausted := false;
    while frontierA + frontierB != {}
      invariant band.Valid() && band == Later(policy, |floors|)
      invariant top == TopOf(a, b, floors, |floors|) && Floors(g, a, b, policy, floors)
      invariant SideIs(g, a, top, frontierA, reachA)
      invariant SideIs(g, b, top, frontierB, reachB)
      invariant floors == [] ==> frontierA != {}
      invariant HeldTo(g, a, top) && HeldTo(g, b, top)
      invariant forall k :: 0 <= k < |floors| ==> !Met(g, a, b, floors[k]) && !Spent(g, a, b, floors[k], maxCommits)
      decreases Under(names, top)
    {
      var ceil := Greatest(frontierA + frontierB);
      var floor := ceil - (band.current - 1);
      FrontierSays(g, a, b, top, frontierA, frontierB, reachA, reachB, ceil);
      TipIsNamed(g, a, b, ceil);
      UnderFalls(names, top, ceil, floor);
      FloorsGrow(g, a, b, policy, floors, floor);
      var sideA := MergeBaseSide(g, a, top, floor, frontierA, reachA);
      if sideA.NotCovered? { return NotCovered(sideA.at, sideA.floor); }
      var sideB := MergeBaseSide(g, b, top, floor, frontierB, reachB);
      if sideB.NotCovered? { return NotCovered(sideB.at, sideB.floor); }
      frontierA, reachA := sideA.value.0, sideA.value.1;
      frontierB, reachB := sideB.value.0, sideB.value.1;
      top, floors := floor, floors + [floor];
      SidesSay(g, a, b, floor, frontierA, frontierB, reachA, reachB, maxCommits);
      if frontierA <= reachB && frontierB <= reachA {
        break;
      }
      if |reachA| + |reachB| > maxCommits {
        exhausted := true;
        break;
      }
      band := band.Grow();
    }
    SidesSay(g, a, b, top, frontierA, frontierB, reachA, reachB, maxCommits);
    SideIsSide(g, a, top, frontierA, reachA);
    SideIsSide(g, b, top, frontierB, reachB);
    var found := FindMaximal(g, reachA * reachB);
    if found.NotCovered? {
      AncestorOfCommon(g, a, reachA * reachB, found.at);
      return NotCovered(found.at, found.floor);
    }
    if !exhausted {
      forall x ensures x in found.value <==> Best(g, a, b, x) {
        MaximalIsBest(g, a, b, top, frontierA, frontierB, reachA, reachB, x);
      }
    }
    if exhausted {
      ExhaustedIsOver(g, a, b, policy, maxCommits, floors);
    }
    r := Ok((found.value, exhausted));
  }

  lemma FrontierSays(g: Graph, a: int, b: int, top: int, fa: set<int>, fb: set<int>, ra: set<int>, rb: set<int>,
                     ceil: int)
    requires SideIs(g, a, top, fa, ra) && SideIs(g, b, top, fb, rb)
    requires ceil in fa + fb && forall x :: x in fa + fb ==> x <= ceil
    ensures Newest(g, a, b, top, ceil) && ceil < top && (Ancestor(g, ceil, a) || Ancestor(g, ceil, b))
  {
    hide Reaches;
    forall x ensures x in fa + fb <==> Exits(g, {a}, top, x) || Exits(g, {b}, top, x) { }
    if ceil in fa { ExitsIsAncestor(g, a, top, ceil); } else { ExitsIsAncestor(g, b, top, ceil); }
  }

  lemma SelfIsBest(g: Graph, a: int)
    requires Descends(g)
    ensures forall x :: x in [a] <==> Best(g, a, a, x)
  {
    hide Reaches;
    AncestorSelf(g, a);
    forall y | Ancestor(g, a, y) && Ancestor(g, y, a) ensures y == a {
      AncestorIsOlder(g, a, y);
      AncestorIsOlder(g, y, a);
    }
  }

  lemma TipIsNamed(g: Graph, a: int, b: int, x: int)
    requires Ancestor(g, x, a) || Ancestor(g, x, b)
    ensures x in Names(g, {a, b})
  {
    if Ancestor(g, x, a) {
      ReachedIsNamed(g, {}, {a}, x);
    } else {
      ReachedIsNamed(g, {}, {b}, x);
    }
  }

  lemma AncestorOfCommon(g: Graph, a: int, common: set<int>, x: int)
    requires forall y :: y in common ==> Ancestor(g, y, a)
    requires Reaches(Edge(g, {}), common, x)
    ensures Ancestor(g, x, a)
  {
    hide Reaches;
    ReachVia(g, {}, {a}, common, x);
  }

  /** The candidates that are ancestors of `seed`, as far as `maxCommits` seqs below it
      and where its history passes under that. */
  method AncestorsAmong(g: Graph, seed: int, candidates: set<int>, maxCommits: nat) returns (r: Outcome<set<int>>)
    requires Descends(g)
    ensures r.Ok? ==> forall x :: x in r.value <==> x in candidates && DownTo(g, seed, seed - maxCommits, x)
    ensures r.Ok? ==> forall x :: x in r.value ==> Ancestor(g, x, seed)
    ensures r.Ok? && candidates != {} ==>
      forall x :: Ancestor(g, x, seed) && x >= seed - maxCommits && (exists c :: c in candidates && c <= x) ==> x in g
    ensures r.NotCovered? ==> r.at !in g && r.at >= r.floor && Ancestor(g, r.at, seed)
    ensures Closed(g) && seed in g ==> r.Ok?
  {
    hide Reaches;
    AllCovered(g, {}, {seed});
    if candidates == {} {
      return Ok({});
    }
    var lowest := Least(candidates);
    var floor := if lowest < seed - maxCommits then seed - maxCommits else lowest;
    var cut := ExpandAncestorBand(g, {seed}, floor);
    if cut.NotCovered? {
      return NotCovered(cut.at, cut.floor);
    }
    r := Ok((cut.value.0 + cut.value.1) * candidates);
    forall x | x in candidates
      ensures x in cut.value.0 + cut.value.1 <==> DownTo(g, seed, seed - maxCommits, x)
    {
      if lowest > seed - maxCommits {
        assert x >= floor;
      }
    }
  }
}
