/** Paint-down-to-common in descending seq bands.

    The bands, their widths and the early stop are all invisible in the answer:
    it is what the wants reach and the haves do not, whatever the schedule.
*/
module PaintWalk {
  import opened Graphs
  import opened Bands
  import opened Schedule

  /** One walk: the graph, both sides' seeds and both sides' graft points. */
  datatype Walk = Walk(g: Graph, wants: set<int>, haves: set<int>, wantBlock: set<int>, haveBlock: set<int>)
  {
    ghost predicate Wanted(x: int)
    {
      Reaches(Edge(g, wantBlock), wants, x)
    }

    ghost predicate Had(x: int)
    {
      Reaches(Edge(g, haveBlock), haves, x)
    }

    /** What a fetch must send: want reaches it and have does not. */
    ghost predicate Needed(x: int)
    {
      Wanted(x) && !Had(x)
    }
  }

  /** Everything either side has touched so far, with each side's closure
      complete down to `floor`.

      `want` and `have` hold what each side painted, the frontier included. */
  ghost predicate Painting(w: Walk, floor: int, want: iset<int>, have: iset<int>)
  {
    && (forall x :: x in want ==> w.Wanted(x))
    && (forall x :: x in have ==> w.Had(x))
    && (forall x :: x in w.wants ==> x in want)
    && (forall x :: x in w.haves ==> x in have)
    && (forall c, p :: c in have && c >= floor && Edge(w.g, w.haveBlock)(c, p) ==> p in have)
    && (forall c, p :: c in want && c !in have && c >= floor && Edge(w.g, w.wantBlock)(c, p) ==>
          p in want || p in have)
  }

  /** The frontier is exactly what lies below the floor, with its colours. */
  ghost predicate Fronts(frontier: map<int, Colour>, floor: int, want: iset<int>, have: iset<int>)
  {
    && (forall x :: x in frontier <==> x < floor && (x in want || x in have))
    && (forall x :: x in frontier ==>
          frontier[x] == if x in want && x in have then Both else if x in want then Want else Have)
  }

  /** At the end of the walk nothing want-only is left below the floor, and
      what was painted want-only is exactly what is needed. */
  lemma PaintedIsNeeded(w: Walk, floor: int, want: iset<int>, have: iset<int>, x: int)
    requires w.haveBlock <= w.wantBlock && Descends(w.g)
    requires Painting(w, floor, want, have)
    requires forall y :: y in want && y !in have ==> y >= floor
    ensures x in want && x !in have <==> w.Needed(x)
  {
    if x in want && x !in have && w.Had(x) {
      HadIsPainted(w, floor, want, have, x);
    }
    if w.Needed(x) {
      NeededIsPainted(w, floor, want, have, x);
    }
  }

  /** Have-paint is complete at and above the floor: a path only descends. */
  lemma HadIsPainted(w: Walk, floor: int, want: iset<int>, have: iset<int>, x: int)
    requires Painting(w, floor, want, have) && Descends(w.g)
    requires w.Had(x) && x >= floor
    ensures x in have
  {
    var edge := Edge(w.g, w.haveBlock);
    forall c, p | (c in have || c < floor) && edge(c, p) ensures p in have || p < floor {
      assert p in w.g[c];
    }
    ReachInduct(edge, w.haves, v => v in have || v < floor, x);
  }

  /** A want path to something have does not reach never leaves want-only paint. */
  lemma NeededIsPainted(w: Walk, floor: int, want: iset<int>, have: iset<int>, x: int)
    requires w.haveBlock <= w.wantBlock
    requires Painting(w, floor, want, have)
    requires forall y :: y in want && y !in have ==> y >= floor
    requires w.Needed(x)
    ensures x in want && x !in have
  {
    hide Reaches;
    var edge := Edge(w.g, w.wantBlock);
    var inv := v => (v in want && v !in have) || w.Had(v);
    forall c, p | inv(c) && edge(c, p) ensures inv(p) {
      if w.Had(c) {
        ReachStep(Edge(w.g, w.haveBlock), w.haves, c, p);
      }
    }
    ReachInduct(edge, w.wants, inv, x);
  }

  /** The seeds one round starts from: a common commit keeps painting have, and
      its want flag does not leak downward. */
  function SeedsAbove(frontier: map<int, Colour>, floor: int): map<int, Colour>
  {
    map x | x in frontier && x >= floor :: if frontier[x] == Want then Want else Have
  }

  /** What one round paints, as the walk's ghost record keeps it. */
  ghost function More(index: Graph, paint: Paint, colour: Colour): iset<int>
  {
    iset x | paint.Painted(index, colour, x)
  }

  function RoundPaint(w: Walk, frontier: map<int, Colour>, floor: int): Paint
  {
    Paint(SeedsAbove(frontier, floor), floor, w.wantBlock, w.haveBlock)
  }

  /** One round, as it is read and painted. */
  ghost predicate IsRound(w: Walk, frontier: map<int, Colour>, floor: int, ceil: int, next: int)
  {
    && (forall x :: x in frontier ==> x <= ceil)
    && next <= ceil < floor
  }

  /** What a round paints stays at or below its ceiling, is really reached, and
      includes every frontier entry at or above the new floor. */
  lemma RoundPaints(w: Walk, floor: int, want: iset<int>, have: iset<int>,
                    frontier: map<int, Colour>, ceil: int, next: int, x: int)
    requires Descends(w.g) && Painting(w, floor, want, have) && Fronts(frontier, floor, want, have)
    requires IsRound(w, frontier, floor, ceil, next)
    ensures var index, paint := Restrict(w.g, next, ceil), RoundPaint(w, frontier, next);
      && (paint.Painted(index, Want, x) ==> x <= ceil && w.Wanted(x))
      && (paint.Painted(index, Have, x) ==> x <= ceil && w.Had(x))
      && !paint.Painted(index, Both, x)
      && (x in frontier && x >= next && frontier[x] == Want ==> paint.Painted(index, Want, x))
      && (x in frontier && x >= next && frontier[x] != Want ==> paint.Painted(index, Have, x))
  {
    hide Reaches;
    var index, paint := Restrict(w.g, next, ceil), RoundPaint(w, frontier, next);
    if paint.Painted(index, Want, x) {
      BandReach(w.g, next, ceil, w.wantBlock, paint.Avoids(Want), paint.SeedsOf(Want), x);
      ReachVia(w.g, w.wantBlock, w.wants, paint.SeedsOf(Want), x);
    }
    if paint.Painted(index, Have, x) {
      BandReach(w.g, next, ceil, w.haveBlock, {}, paint.SeedsOf(Have), x);
      ReachVia(w.g, w.haveBlock, w.haves, paint.SeedsOf(Have), x);
    }
    assert paint.SeedsOf(Both) == {};
    NothingFromNothing(Down(index, next, {}, {}), x);
    if x in frontier && x >= next {
      var colour := if frontier[x] == Want then Want else Have;
      ReachSeed(Down(index, next, paint.Blocks(colour), paint.Avoids(colour)), paint.SeedsOf(colour), x);
    }
  }

  /** Both closures hold one band further down. */
  lemma RoundKeepsPainting(w: Walk, floor: int, want: iset<int>, have: iset<int>,
                           frontier: map<int, Colour>, ceil: int, next: int)
    requires Descends(w.g) && Painting(w, floor, want, have) && Fronts(frontier, floor, want, have)
    requires IsRound(w, frontier, floor, ceil, next)
    ensures var index, paint := Restrict(w.g, next, ceil), RoundPaint(w, frontier, next);
      Painting(w, next, want + More(index, paint, Want), have + More(index, paint, Have))
  {
    hide Reaches;
    var index, paint := Restrict(w.g, next, ceil), RoundPaint(w, frontier, next);
    var want', have' := want + More(index, paint, Want), have + More(index, paint, Have);
    forall x ensures x in want' ==> w.Wanted(x) { RoundPaints(w, floor, want, have, frontier, ceil, next, x); }
    forall x ensures x in have' ==> w.Had(x) { RoundPaints(w, floor, want, have, frontier, ceil, next, x); }
    forall c, p | c in have' && c >= next && Edge(w.g, w.haveBlock)(c, p) ensures p in have' {
      RoundPaints(w, floor, want, have, frontier, ceil, next, c);
      if c < floor {
        BandEdge(w.g, next, ceil, w.haveBlock, {}, c, p);
        ReachStep(Down(index, next, w.haveBlock, {}), paint.SeedsOf(Have), c, p);
      }
    }
    forall c, p | c in want' && c !in have' && c >= next && Edge(w.g, w.wantBlock)(c, p)
      ensures p in want' || p in have'
    {
      RoundPaints(w, floor, want, have, frontier, ceil, next, c);
      var avoid := paint.Avoids(Want);
      if c < floor && p !in avoid {
        BandEdge(w.g, next, ceil, w.wantBlock, avoid, c, p);
        ReachStep(Down(index, next, w.wantBlock, avoid), paint.SeedsOf(Want), c, p);
      }
    }
  }

  /** Below-floor paint or-ed into what the frontier still held. */
  function Carry(frontier: map<int, Colour>, floor: int, below: map<int, Colour>): map<int, Colour>
  {
    map x | x in frontier.Keys + below.Keys && x < floor ::
      if x !in below then frontier[x] else if x in frontier then Mix(frontier[x], below[x]) else below[x]
  }

  /** The carried frontier is again exactly what was painted below the floor,
      and the round finalizes exactly the want-only paint of its band. */
  lemma RoundKeepsFrontier(w: Walk, floor: int, want: iset<int>, have: iset<int>,
                           frontier: map<int, Colour>, ceil: int, next: int, band: PaintBand)
    requires Descends(w.g) && Painting(w, floor, want, have) && Fronts(frontier, floor, want, have)
    requires IsRound(w, frontier, floor, ceil, next)
    requires IsBand(Restrict(w.g, next, ceil), RoundPaint(w, frontier, next), band)
    ensures var index, paint := Restrict(w.g, next, ceil), RoundPaint(w, frontier, next);
      var want', have' := want + More(index, paint, Want), have + More(index, paint, Have);
      && Fronts(Carry(frontier, next, band.below), next, want', have')
      && (forall x :: x in band.finalized <==> next <= x < floor && x in want' && x !in have')
      && (forall x :: x >= floor ==> (x in want' <==> x in want) && (x in have' <==> x in have))
  {
    hide Reaches;
    var index, paint := Restrict(w.g, next, ceil), RoundPaint(w, frontier, next);
    var want', have' := want + More(index, paint, Want), have + More(index, paint, Have);
    forall x ensures x in band.finalized <==> next <= x < floor && x in want' && x !in have' {
      RoundPaints(w, floor, want, have, frontier, ceil, next, x);
    }
    forall x | x >= floor ensures (x in want' <==> x in want) && (x in have' <==> x in have) {
      RoundPaints(w, floor, want, have, frontier, ceil, next, x);
    }
    var carried := Carry(frontier, next, band.below);
    forall x ensures x in carried <==> x < next && (x in want' || x in have') {
      RoundPaints(w, floor, want, have, frontier, ceil, next, x);
      if AnyColour(index, paint, x) {
        var colour :| paint.Painted(index, colour, x);
        assert colour == Want || colour == Have || colour == Both;
      }
    }
    forall x | x in carried
      ensures carried[x] == if x in want' && x in have' then Both else if x in want' then Want else Have
    {
      RoundPaints(w, floor, want, have, frontier, ceil, next, x);
    }
  }

  /** A round whose band is empty changes nothing, so a schedule of width zero
      would never end. */
  lemma WidthlessRoundStalls(w: Walk, frontier: map<int, Colour>, ceil: int, next: int, band: PaintBand)
    requires forall x :: x in frontier ==> x <= ceil
    requires ceil < next
    requires IsBand(Restrict(w.g, next, ceil), RoundPaint(w, frontier, next), band)
    ensures band.finalized == [] && Carry(frontier, next, band.below) == frontier
  {
    hide Reaches;
    assert band.finalized != [] ==> band.finalized[0] in band.finalized;
    var index, paint := Restrict(w.g, next, ceil), RoundPaint(w, frontier, next);
    forall x, colour: Colour ensures !paint.Painted(index, colour, x) {
      assert paint.SeedsOf(colour) == {};
      NothingFromNothing(Down(index, next, paint.Blocks(colour), paint.Avoids(colour)), x);
    }
  }

  /** One round: expands the topmost `width` seqs of the frontier, returning
      the frontier it leaves and the want-only commits it finalized. */
  method PaintRound(w: Walk, width: int, frontier: map<int, Colour>)
    returns (r: Outcome<(map<int, Colour>, seq<int>)>, ghost ceil: int, ghost next: int, ghost band: PaintBand)
    ensures frontier.Keys == {} ==> r == Ok((frontier, []))
    ensures frontier.Keys != {} ==>
      ceil in frontier && (forall x :: x in frontier ==> x <= ceil) && next == ceil - width + 1
    ensures frontier.Keys != {} && r.Ok? ==>
      && IsBand(Restrict(w.g, next, ceil), RoundPaint(w, frontier, next), band)
      && r.value == (Carry(frontier, next, band.below), band.finalized)
      && Explored(Restrict(w.g, next, ceil), RoundPaint(w, frontier, next))
    ensures frontier.Keys != {} && r.NotCovered? ==>
      && r.floor == next <= r.at && r.at !in Restrict(w.g, next, ceil)
      && AnyColour(Restrict(w.g, next, ceil), RoundPaint(w, frontier, next), r.at)
    ensures frontier.Keys == {} ==> r.Ok?
  {
    ceil, next, band := 0, 0, PaintBand([], map[]);
    if frontier.Keys == {} {
      return Ok((frontier, [])), ceil, next, band;
    }
    var top, floor := TopBand(frontier.Keys, width);
    ceil, next := top, floor;
    var painted := ExpandPaint(Restrict(w.g, floor, top), RoundPaint(w, frontier, floor));
    if painted.NotCovered? {
      return NotCovered(painted.at, painted.floor), ceil, next, band;
    }
    band := painted.value;
    r := Ok((Carry(frontier, floor, painted.value.below), painted.value.finalized));
  }

  /** Wants and haves as the frontier first holds them. */
  function Opening(w: Walk): map<int, Colour>
  {
    map x | x in w.wants + w.haves ::
      if x in w.wants && x in w.haves then Both else if x in w.wants then Want else Have
  }

  lemma OpeningIsPainted(w: Walk, floor: int)
    requires forall x :: x in w.wants || x in w.haves ==> x < floor
    ensures var want, have := (iset x | x in w.wants), (iset x | x in w.haves);
      Painting(w, floor, want, have) && Fronts(Opening(w), floor, want, have)
  {
    hide Reaches;
    forall x | x in w.wants ensures w.Wanted(x) { ReachSeed(Edge(w.g, w.wantBlock), w.wants, x); }
    forall x | x in w.haves ensures w.Had(x) { ReachSeed(Edge(w.g, w.haveBlock), w.haves, x); }
  }

  /** What is collected so far: the want-only paint at and above the floor, once each. */
  ghost predicate Collected(needed: seq<int>, floor: int, want: iset<int>, have: iset<int>)
  {
    Distinct(needed) && forall x :: x in needed <==> x >= floor && x in want && x !in have
  }

  lemma CollectMore(needed: seq<int>, more: seq<int>, floor: int, next: int,
                    want: iset<int>, have: iset<int>, want': iset<int>, have': iset<int>)
    requires next <= floor && Collected(needed, floor, want, have) && Ascending(more)
    requires forall x :: x in more <==> next <= x < floor && x in want' && x !in have'
    requires forall x :: x >= floor ==> (x in want' <==> x in want) && (x in have' <==> x in have)
    ensures Collected(needed + more, next, want', have')
  {
    var all := needed + more;
    forall i, j | 0 <= i < j < |all| ensures all[i] != all[j] {
      if i < |needed| <= j {
        assert all[i] in needed && all[j] == more[j - |needed|] && all[j] in more;
      }
    }
  }

  /** Paint-down-to-common: every commit the wants reach and the haves do not,
      each exactly once, for every schedule whose bands are not empty. */
  method BandedPaintWalk(w: Walk, policy: BandPolicy) returns (r: Outcome<seq<int>>)
    requires Descends(w.g) && w.haveBlock <= w.wantBlock && policy.Valid()
    ensures r.Ok? ==> Distinct(r.value) && forall x :: x in r.value <==> w.Needed(x)
    ensures r.Ok? ==> forall x :: x in r.value && x !in w.wantBlock ==> x in w.g
    ensures r.NotCovered? ==> r.at !in w.g && r.at >= r.floor && (w.Wanted(r.at) || w.Had(r.at))
    ensures Closed(w.g) && w.wants + w.haves <= w.g.Keys ==> r.Ok?
  {
    hide Reaches;
    AllCovered(w.g, w.wantBlock, w.wants);
    AllCovered(w.g, w.haveBlock, w.haves);
    var band := policy;
    var frontier := Opening(w);
    var needed: seq<int> := [];
    ghost var floor := UpperBound(w.wants + w.haves);
    ghost var want, have := (iset x | x in w.wants), (iset x | x in w.haves);
    OpeningIsPainted(w, floor);
    ghost var names := Names(w.g, w.wants + w.haves);
    while exists x :: x in frontier && frontier[x] == Want
      invariant band.Valid()
      invariant Painting(w, floor, want, have)
      invariant Fronts(frontier, floor, want, have)
      invariant Collected(needed, floor, want, have)
      invariant forall x :: x in needed && x !in w.wantBlock ==> x in w.g
      decreases Under(names, floor)
    {
      var round, ceil, next, painted := PaintRound(w, band.current, frontier);
      if round.NotCovered? {
        Uncovered(w, floor, want, have, frontier, ceil, next, round.at);
        return NotCovered(round.at, round.floor);
      }
      FrontierIsNamed(w, floor, want, have, frontier, ceil);
      UnderFalls(names, floor, ceil, next);
      RoundKeepsPainting(w, floor, want, have, frontier, ceil, next);
      RoundKeepsFrontier(w, floor, want, have, frontier, ceil, next, painted);
      ghost var index, paint := Restrict(w.g, next, ceil), RoundPaint(w, frontier, next);
      ghost var want', have' := want + More(index, paint, Want), have + More(index, paint, Have);
      CollectMore(needed, round.value.1, floor, next, want, have, want', have');
      FinalizedIsHeld(index, paint, painted);
      frontier, needed := round.value.0, needed + round.value.1;
      floor, want, have := next, want', have';
      band := band.Grow();
    }
    forall x ensures x in needed <==> w.Needed(x) {
      PaintedIsNeeded(w, floor, want, have, x);
    }
    r := Ok(needed);
  }

  lemma FinalizedIsHeld(index: Graph, paint: Paint, band: PaintBand)
    requires IsBand(index, paint, band) && Explored(index, paint)
    ensures forall x :: x in band.finalized && x !in paint.wantBlock ==> x in index
  {
    hide Reaches;
    forall x | x in band.finalized && x !in paint.wantBlock ensures x in index {
      assert paint.Painted(index, Want, x);
    }
  }

  lemma FrontierIsNamed(w: Walk, floor: int, want: iset<int>, have: iset<int>, frontier: map<int, Colour>, x: int)
    requires Painting(w, floor, want, have) && Fronts(frontier, floor, want, have) && x in frontier
    ensures x in Names(w.g, w.wants + w.haves)
  {
    hide Reaches;
    if x in want {
      ReachedIsNamed(w.g, w.wantBlock, w.wants, x);
    } else {
      ReachedIsNamed(w.g, w.haveBlock, w.haves, x);
    }
  }

  /** A commit a round could not read is one the graph lacks and the walk reaches. */
  lemma Uncovered(w: Walk, floor: int, want: iset<int>, have: iset<int>,
                  frontier: map<int, Colour>, ceil: int, next: int, x: int)
    requires Descends(w.g) && Painting(w, floor, want, have) && Fronts(frontier, floor, want, have)
    requires IsRound(w, frontier, floor, ceil, next)
    requires x >= next && x !in Restrict(w.g, next, ceil)
    requires AnyColour(Restrict(w.g, next, ceil), RoundPaint(w, frontier, next), x)
    ensures x !in w.g && (w.Wanted(x) || w.Had(x))
  {
    hide Reaches;
    RoundPaints(w, floor, want, have, frontier, ceil, next, x);
    var index, paint := Restrict(w.g, next, ceil), RoundPaint(w, frontier, next);
    var colour :| paint.Painted(index, colour, x);
    assert colour == Want || colour == Have || colour == Both;
  }

  /** Commit 1 on commit 0: the client has 1 and is grafted there, and asks for 1 ungrafted. */
  const GraftedHave := Walk(map[0 := [], 1 := [0]], {1}, {1}, {}, {1})

  /** Why a have's graft must be a want's too: here commit 0 is needed, and a
      walk would start with nothing left to paint. */
  lemma UnsharedGraftLosesCommits()
    ensures Descends(GraftedHave.g) && Closed(GraftedHave.g) && !(GraftedHave.haveBlock <= GraftedHave.wantBlock)
    ensures GraftedHave.Needed(0)
    ensures forall x :: x in Opening(GraftedHave) ==> Opening(GraftedHave)[x] != Want
  {
    var w := GraftedHave;
    var edge := Edge(w.g, w.wantBlock);
    ReachSeed(edge, w.wants, 1);
    ReachStep(edge, w.wants, 1, 0);
    if w.Had(0) {
      ReachInduct(Edge(w.g, w.haveBlock), w.haves, x => x == 1, 0);
    }
  }
}
