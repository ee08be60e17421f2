/** The geometric schedule of band widths a banded walk descends through, and
    what one read of the index hands a band. */
module Schedule {
  import opened Graphs
  import opened Bands

  /** A band starts narrow and multiplies its width each round, up to a limit. */
  const WALK_BAND_MAX_WIDTH := 100_000
  const WALK_BAND_INITIAL_WIDTH := 1024
  const WALK_BAND_GROWTH := 8

  datatype BandPolicy = BandPolicy(current: int, max: int)
  {
    /** A schedule that makes progress: no band is empty. */
    ghost predicate Valid()
    {
      1 <= current <= max
    }

    static function New(maxWidth: int): (p: BandPolicy)
      ensures maxWidth >= 1 ==> p.Valid()
      ensures p.current <= WALK_BAND_INITIAL_WIDTH
    {
      BandPolicy(if WALK_BAND_INITIAL_WIDTH <= maxWidth then WALK_BAND_INITIAL_WIDTH else maxWidth, maxWidth)
    }

    /** The schedule every walk is called with. */
    static function Production(): (p: BandPolicy)
      ensures p.Valid()
      ensures p.current == 1_024 && p.Grow().current == 8_192 && p.Grow().Grow().current == 65_536
      ensures p.Grow().Grow().Grow() == p.Grow().Grow().Grow().Grow() == BandPolicy(100_000, 100_000)
    {
      New(WALK_BAND_MAX_WIDTH)
    }

    function Grow(): (p: BandPolicy)
      ensures Valid() ==> p.Valid() && p.current >= current
    {
      var wider := current * WALK_BAND_GROWTH;
      BandPolicy(if wider <= max then wider else max, max)
    }
  }

  /** The graph's rows from `floor` to `ceil`: all that a band reads. */
  function Restrict(g: Graph, floor: int, ceil: int): Graph
  {
    map c | c in g && floor <= c <= ceil :: g[c]
  }

  /** The parent edges of the whole history, except those out of `block`. */
  ghost function Edge(g: Graph, block: set<int>): (int, int) -> bool
  {
    (c, p) => c in g && c !in block && p in g[c]
  }

  /** Every parent of a commit the graph holds is one it holds. */
  ghost predicate Closed(g: Graph)
  {
    forall c, p :: c in g && p in g[c] ==> p in g
  }

  /** A walk of a closed graph from commits it holds never meets one it lacks,
      so no band of it is ever `NotCovered`. */
  lemma ClosedIsCovered(g: Graph, block: set<int>, seeds: set<int>, x: int)
    requires Closed(g) && seeds <= g.Keys
    requires Reaches(Edge(g, block), seeds, x)
    ensures x in g
  {
    var edge := Edge(g, block);
    forall v, w | edge(v, w) ensures w in g { assert w in g[v]; }
    ReachInduct(edge, seeds, v => v in g, x);
  }

  lemma AllCovered(g: Graph, block: set<int>, seeds: set<int>)
    ensures Closed(g) && seeds <= g.Keys ==> forall x :: Reaches(Edge(g, block), seeds, x) ==> x in g
  {
    if Closed(g) && seeds <= g.Keys {
      forall x | Reaches(Edge(g, block), seeds, x) ensures x in g { ClosedIsCovered(g, block, seeds, x); }
    }
  }

  /** A band's edges, seen through the read that serves it, are the graph's. */
  lemma BandEdge(g: Graph, floor: int, ceil: int, block: set<int>, avoid: set<int>, c: int, p: int)
    ensures Down(Restrict(g, floor, ceil), floor, block, avoid)(c, p)
      <==> floor <= c <= ceil && Edge(g, block)(c, p) && p !in avoid
  {
  }

  /** What a band reaches lies at or below its ceiling, and the whole graph reaches it. */
  lemma BandReach(g: Graph, floor: int, ceil: int, block: set<int>, avoid: set<int>, seeds: set<int>, x: int)
    requires Descends(g) && forall s :: s in seeds ==> s <= ceil
    requires Reaches(Down(Restrict(g, floor, ceil), floor, block, avoid), seeds, x)
    ensures x <= ceil && Reaches(Edge(g, block), seeds, x)
  {
    var down := Down(Restrict(g, floor, ceil), floor, block, avoid);
    ReachInduct(down, seeds, v => v <= ceil, x);
    ReachSubgraph(down, Edge(g, block), seeds, x);
  }

  /** What is reached from commits already reached is reached. */
  lemma ReachVia(g: Graph, block: set<int>, seeds: set<int>, mid: set<int>, x: int)
    requires forall m :: m in mid ==> Reaches(Edge(g, block), seeds, m)
    requires Reaches(Edge(g, block), mid, x)
    ensures Reaches(Edge(g, block), seeds, x)
  {
    hide Reaches;
    assert forall m :: m in mid ==> Reaches(Edge(g, block), seeds, m);
    ReachTrans(Edge(g, block), seeds, mid, x);
  }

  lemma NothingFromNothing(edge: (int, int) -> bool, x: int)
    ensures !Reaches(edge, {}, x)
  {
  }

  /** The topmost key of a frontier and the floor of the band it opens. */
  method TopBand(keys: set<int>, width: int) returns (ceil: int, floor: int)
    requires keys != {}
    ensures ceil in keys && forall x :: x in keys ==> x <= ceil
    ensures floor == ceil - width + 1
  {
    ceil := Greatest(keys);
    floor := ceil - (width - 1);
  }

  lemma UpperBound(s: set<int>) returns (top: int)
    ensures forall x :: x in s ==> x < top
    decreases s
  {
    top := 0;
    if s != {} {
      var x := PickGhost(s);
      var rest := UpperBound(s - {x});
      top := if rest <= x then x + 1 else rest;
      assert forall y :: y in s ==> y == x || y in s - {x};
    }
  }

  /** Every seq a walk from `seeds` could ever name. */
  ghost function Names(g: Graph, seeds: set<int>): set<int>
  {
    seeds + (set c, p | c in g && p in g[c] :: p)
  }

  lemma ReachedIsNamed(g: Graph, block: set<int>, seeds: set<int>, x: int)
    requires Reaches(Edge(g, block), seeds, x)
    ensures x in Names(g, seeds)
  {
    var edge := Edge(g, block);
    forall v, w | edge(v, w) ensures w in Names(g, seeds) { assert w in g[v]; }
    ReachInduct(edge, seeds, v => v in Names(g, seeds), x);
  }

  /** The names still below a walk's floor, which every round leaves fewer of. */
  ghost function Under(names: set<int>, floor: int): set<int>
  {
    set x | x in names && x < floor
  }

  lemma UnderFalls(names: set<int>, floor: int, ceil: int, next: int)
    requires ceil in names && next <= ceil < floor
    ensures Under(names, next) < Under(names, floor)
  {
    assert ceil in Under(names, floor) && ceil !in Under(names, next);
  }
}
