/** The depth-limited walk of a shallow fetch, and the commits it sends. */
module ShallowWalk {
  import opened Graphs
  import opened Bands
  import opened Schedule
  import opened PaintWalk

  /** Every want, at depth one. */
  function Ones(wants: set<int>): map<int, int>
  {
    map x | x in wants :: 1
  }

  /** `x` is at most `d` deep from some want. */
  ghost predicate Deep(g: Graph, wants: set<int>, x: int, d: int)
  {
    Within(Edge(g, {}), Ones(wants), x, d)
  }

  /** What the walk has settled above `floor` and still carries below it: each
      depth is some path's, and nothing within the limit has been lost. */
  ghost predicate Descending(g: Graph, wants: set<int>, limit: int, floor: int,
                             sent: map<int, int>, frontier: map<int, int>)
  {
    && (forall x :: x in sent ==> x >= floor && x in g && sent[x] <= limit && Deep(g, wants, x, sent[x]))
    && (forall x :: x in frontier ==> x < floor && frontier[x] <= limit && Deep(g, wants, x, frontier[x]))
    && (forall x :: x in wants ==> Kept(sent, frontier, x, 1))
    && (forall c, p :: c in sent && sent[c] < limit && Edge(g, {})(c, p) ==> Kept(sent, frontier, p, sent[c] + 1))
  }

  ghost predicate Kept(sent: map<int, int>, frontier: map<int, int>, x: int, d: int)
  {
    (x in sent && sent[x] <= d) || (x in frontier && frontier[x] <= d)
  }

  /** With nothing left to carry, the settled depths are the minimum ones. */
  lemma SettledIsShortest(g: Graph, wants: set<int>, limit: int, floor: int, sent: map<int, int>)
    requires Descending(g, wants, limit, floor, sent, map[]) && limit >= 1
    ensures Shortest(Edge(g, {}), Ones(wants), limit, sent)
  {
    hide Within;
    var edge, ones := Edge(g, {}), Ones(wants);
    assert Relaxed(edge, ones, sent, limit) by {
      forall x, y | x in sent && sent[x] < limit && edge(x, y) ensures y in sent && sent[y] <= sent[x] + 1 {
        assert Kept(sent, map[], y, sent[x] + 1);
      }
      forall x | x in ones ensures x in sent && sent[x] <= ones[x] {
        assert Kept(sent, map[], x, 1);
      }
    }
    forall x, d | Within(edge, ones, x, d) && d <= limit ensures x in sent && sent[x] <= d {
      RelaxedIsMinimal(edge, ones, sent, limit, x, d);
    }
  }

  /** The part of the frontier one round expands. */
  function Above(frontier: map<int, int>, floor: int): map<int, int>
  {
    map x | x in frontier && x >= floor :: frontier[x]
  }

  /** The next frontier: what lies under the floor, each at the lesser of its distances. */
  function MinMerge(frontier: map<int, int>, floor: int, below: map<int, int>): map<int, int>
  {
    map x | x in frontier.Keys + below.Keys && x < floor ::
      if x !in below then frontier[x]
      else if x in frontier && frontier[x] <= below[x] then frontier[x] else below[x]
  }

  /** One round's expansion, as `ExpandDepth` specifies it. */
  ghost predicate IsDepthBand(g: Graph, limit: int, frontier: map<int, int>, ceil: int, next: int, band: DepthBand)
  {
    && Shortest(Down(Restrict(g, next, ceil), next, {}, {}), Above(frontier, next), limit, band.reached + band.below)
    && (forall x :: x in band.reached ==> next <= x && x in Restrict(g, next, ceil) && band.reached[x] <= limit)
    && (forall x :: x in band.below ==> x < next && band.below[x] <= limit)
  }

  /** Each depth a band found is a depth of the whole walk. */
  lemma BandIsDeep(g: Graph, wants: set<int>, limit: int, floor: int, sent: map<int, int>, frontier: map<int, int>,
                   ceil: int, next: int, band: DepthBand, x: int)
    requires Descending(g, wants, limit, floor, sent, frontier)
    requires IsDepthBand(g, limit, frontier, ceil, next, band)
    requires x in band.reached || x in band.below
    ensures Deep(g, wants, x, (band.reached + band.below)[x])
  {
    hide Within;
    var down := Down(Restrict(g, next, ceil), next, {}, {});
    WithinTrans(down, Edge(g, {}), Above(frontier, next), Ones(wants), x, (band.reached + band.below)[x]);
  }

  /** What was kept before a round is kept after it. */
  lemma RoundKeeps(g: Graph, limit: int, sent: map<int, int>, frontier: map<int, int>,
                   ceil: int, next: int, band: DepthBand, x: int, d: int)
    requires IsDepthBand(g, limit, frontier, ceil, next, band)
    requires forall y :: y in frontier ==> frontier[y] <= limit
    requires forall y :: y in sent ==> y > ceil
    requires Kept(sent, frontier, x, d)
    ensures Kept(sent + band.reached, MinMerge(frontier, next, band.below), x, d)
  {
    hide Within;
    if x in sent && sent[x] <= d {
      assert x !in band.reached;
    } else if x >= next {
      WithinSeed(Down(Restrict(g, next, ceil), next, {}, {}), Above(frontier, next), x);
      assert x in band.reached + band.below;
    }
  }

  /** The walk's record holds one band further down. */
  lemma RoundDescends(g: Graph, wants: set<int>, limit: int, floor: int, sent: map<int, int>, frontier: map<int, int>,
                      ceil: int, next: int, band: DepthBand)
    requires Descends(g) && Descending(g, wants, limit, floor, sent, frontier)
    requires next <= ceil < floor
    requires IsDepthBand(g, limit, frontier, ceil, next, band)
    ensures Descending(g, wants, limit, next, sent + band.reached, MinMerge(frontier, next, band.below))
  {
    hide Within;
    hide Kept;
    var sent', frontier' := sent + band.reached, MinMerge(frontier, next, band.below);
    forall x | x in sent'
      ensures x >= next && x in g && sent'[x] <= limit && Deep(g, wants, x, sent'[x])
    {
      if x in band.reached {
        BandIsDeep(g, wants, limit, floor, sent, frontier, ceil, next, band, x);
        assert (band.reached + band.below)[x] == band.reached[x];
      }
    }
    forall x | x in frontier'
      ensures x < next && frontier'[x] <= limit && Deep(g, wants, x, frontier'[x])
    {
      if x in band.below {
        BandIsDeep(g, wants, limit, floor, sent, frontier, ceil, next, band, x);
      }
    }
    forall x | x in wants ensures Kept(sent', frontier', x, 1) {
      RoundKeeps(g, limit, sent, frontier, ceil, next, band, x, 1);
    }
    forall c, p | c in sent' && sent'[c] < limit && Edge(g, {})(c, p)
      ensures Kept(sent', frontier', p, sent'[c] + 1)
    {
      if c in band.reached {
        BandExpands(g, limit, sent, frontier, ceil, next, band, c, p);
      } else {
        RoundKeeps(g, limit, sent, frontier, ceil, next, band, p, sent[c] + 1);
      }
    }
  }

  /** A commit a band settled below the limit has its parents kept. */
  lemma BandExpands(g: Graph, limit: int, sent: map<int, int>, frontier: map<int, int>,
                    ceil: int, next: int, band: DepthBand, c: int, p: int)
    requires IsDepthBand(g, limit, frontier, ceil, next, band)
    requires c in band.reached && band.reached[c] < limit && Edge(g, {})(c, p)
    ensures Kept(sent + band.reached, MinMerge(frontier, next, band.below), p, band.reached[c] + 1)
  {
    hide Within;
    var down, seeds := Down(Restrict(g, next, ceil), next, {}, {}), Above(frontier, next);
    assert (band.reached + band.below)[c] == band.reached[c];
    BandEdge(g, next, ceil, {}, {}, c, p);
    WithinStep(down, seeds, c, p, band.reached[c]);
    assert p in band.reached + band.below;
  }

  lemma OpeningDescends(g: Graph, wants: set<int>, limit: int, floor: int)
    requires limit >= 1 && forall x :: x in wants ==> x < floor
    ensures Descending(g, wants, limit, floor, map[], Ones(wants))
  {
    hide Within;
    forall x | x in wants ensures Deep(g, wants, x, 1) { WithinSeed(Edge(g, {}), Ones(wants), x); }
  }

  /** The commits classified so far, in the order their bands pushed them. */
  ghost predicate Lists(pushed: seq<int>, sent: map<int, int>)
  {
    Distinct(pushed) && forall x :: x in pushed <==> x in sent
  }

  lemma ListMore(pushed: seq<int>, sent: map<int, int>, more: seq<int>, reached: map<int, int>)
    requires Lists(pushed, sent) && Ascending(more) && AsSet(more) == reached.Keys
    requires forall x :: x in reached ==> x !in sent
    ensures Lists(pushed + more, sent + reached)
  {
    assert forall x :: x in more <==> x in AsSet(more);
    var all := pushed + more;
    forall i, j | 0 <= i < j < |all| ensures all[i] != all[j] {
      if i < |pushed| <= j {
        assert all[i] in pushed && all[j] == more[j - |pushed|] && all[j] in more;
      }
    }
  }

  /** Every sent commit with its minimum depth, and the same commits as listed. */
  datatype Classified = Classified(sent: map<int, int>, pushed: seq<int>)

  /** One round: expands the topmost `width` seqs of the frontier. */
  method DepthRound(g: Graph, limit: int, width: int, frontier: map<int, int>)
    returns (r: Outcome<DepthBand>, ceil: int, floor: int)
    requires frontier.Keys != {} && forall x :: x in frontier ==> frontier[x] <= limit
    ensures ceil in frontier && (forall x :: x in frontier ==> x <= ceil) && floor == ceil - width + 1
    ensures r.Ok? ==> IsDepthBand(g, limit, frontier, ceil, floor, r.value)
    ensures r.NotCovered? ==>
      && r.floor == floor <= r.at && r.at !in Restrict(g, floor, ceil)
      && Reaches(Down(Restrict(g, floor, ceil), floor, {}, {}), Above(frontier, floor).Keys, r.at)
  {
    hide Within;
    hide Reaches;
    ceil, floor := TopBand(frontier.Keys, width);
    r := ExpandDepth(Restrict(g, floor, ceil), Above(frontier, floor), floor, limit);
  }

  /** Every commit within `limit` of some want and no other, each at its
      minimum depth, for every schedule whose bands are not empty. */
  method DepthClassify(g: Graph, wants: set<int>, limit: int, policy: BandPolicy) returns (r: Outcome<Classified>)
    requires Descends(g) && limit >= 1 && policy.Valid()
    ensures r.Ok? ==> Shortest(Edge(g, {}), Ones(wants), limit, r.value.sent)
    ensures r.Ok? ==> forall x :: x in r.value.sent ==> x in g && r.value.sent[x] <= limit
    ensures r.Ok? ==> Lists(r.value.pushed, r.value.sent)
    ensures r.NotCovered? ==> r.at !in g && r.at >= r.floor && Reaches(Edge(g, {}), wants, r.at)
  {
    hide Within;
    hide Reaches;
    hide Shortest;
    var width := policy;
    var frontier := Ones(wants);
    var sent: map<int, int> := map[];
    var pushed: seq<int> := [];
    ghost var floor := UpperBound(wants);
    ghost var names := Names(g, wants);
    OpeningDescends(g, wants, limit, floor);
    while frontier.Keys != {}
      invariant width.Valid()
      invariant Descending(g, wants, limit, floor, sent, frontier)
      invariant Lists(pushed, sent)
      decreases Under(names, floor)
    {
      var band, ceil, next := DepthRound(g, limit, width.current, frontier);
      if band.NotCovered? {
        Uncovered(g, wants, limit, floor, sent, frontier, ceil, next, band.at);
        return NotCovered(band.at, band.floor);
      }
      DeepIsNamed(g, wants, ceil, frontier[ceil]);
      UnderFalls(names, floor, ceil, next);
      RoundDescends(g, wants, limit, floor, sent, frontier, ceil, next, band.value);
      var more := InOrder(band.value.reached.Keys);
      ListMore(pushed, sent, more, band.value.reached);
      sent, pushed := sent + band.value.reached, pushed + more;
      frontier := MinMerge(frontier, next, band.value.below);
      floor, width := next, width.Grow();
    }
    assert frontier == map[];
    SettledIsShortest(g, wants, limit, floor, sent);
    r := Ok(Classified(sent, pushed));
  }

  lemma DeepIsNamed(g: Graph, wants: set<int>, x: int, d: int)
    requires Deep(g, wants, x, d)
    ensures x in Names(g, wants)
  {
    WithinReaches(Edge(g, {}), Ones(wants), x, d);
    assert Ones(wants).Keys == wants;
    ReachedIsNamed(g, {}, wants, x);
  }

  lemma Uncovered(g: Graph, wants: set<int>, limit: int, floor: int, sent: map<int, int>, frontier: map<int, int>,
                  ceil: int, next: int, x: int)
    requires Descends(g) && Descending(g, wants, limit, floor, sent, frontier)
    requires forall y :: y in frontier ==> y <= ceil
    requires x >= next && x !in Restrict(g, next, ceil)
    requires Reaches(Down(Restrict(g, next, ceil), next, {}, {}), Above(frontier, next).Keys, x)
    ensures x !in g && Reaches(Edge(g, {}), wants, x)
  {
    hide Reaches;
    hide Within;
    var seeds := Above(frontier, next);
    BandReach(g, next, ceil, {}, {}, seeds.Keys, x);
    forall s | s in seeds.Keys ensures Reaches(Edge(g, {}), wants, s) {
      WithinReaches(Edge(g, {}), Ones(wants), s, frontier[s]);
      assert Ones(wants).Keys == wants;
    }
    ReachVia(g, {}, wants, seeds.Keys, x);
  }

  /** The answer to a `deepen` fetch. */
  datatype Shallow = Shallow(needed: seq<int>, shallow: set<int>, unshallow: set<int>, boundary: set<int>)

  /** Why a shallow fetch has no answer, or the answer. */
  datatype Deepened = BadDepth | Lacks(at: int) | Deepened(answer: Shallow)

  /** `x` is exactly `d` deep from the wants. */
  ghost predicate DepthIs(g: Graph, wants: set<int>, x: int, d: int)
  {
    Deep(g, wants, x, d) && !Deep(g, wants, x, d - 1)
  }

  /** Commits the client has cut off that are sent within the depth, so are cut no more. */
  function Unshallowed(sent: map<int, int>, shallow: set<int>, depth: int): set<int>
  {
    set x | x in shallow && x in sent && sent[x] != depth
  }

  function Boundary(sent: map<int, int>, depth: int): set<int>
  {
    set x | x in sent && sent[x] == depth
  }

  /** The coloured search that takes away what the client has: wants stop at both
      boundaries, old and new, and start again under the commits no longer cut off. */
  function SecondPass(g: Graph, wants: set<int>, haves: set<int>, shallow: set<int>,
                      sent: map<int, int>, depth: int): Walk
  {
    var parents := set c, p | c in Unshallowed(sent, shallow, depth) && c in g && p in g[c] :: p;
    Walk(g, wants + parents, haves, Boundary(sent, depth) + shallow, shallow)
  }

  /** What the second pass wants is exactly what the first pass sent. */
  lemma SecondPassWants(g: Graph, wants: set<int>, haves: set<int>, shallow: set<int>,
                        sent: map<int, int>, depth: int, x: int)
    requires depth >= 1 && Shortest(Edge(g, {}), Ones(wants), depth, sent)
    requires forall y :: y in sent ==> y in g && sent[y] <= depth
    ensures SecondPass(g, wants, haves, shallow, sent, depth).Wanted(x) <==> x in sent
  {
    hide Reaches;
    hide Within;
    var w := SecondPass(g, wants, haves, shallow, sent, depth);
    var edge := Edge(g, w.wantBlock);
    if w.Wanted(x) {
      forall s | s in w.wants ensures s in sent { SeedIsSent(g, wants, haves, shallow, sent, depth, s); }
      forall c, p | c in sent && edge(c, p) ensures p in sent {
        WithinStep(Edge(g, {}), Ones(wants), c, p, sent[c]);
      }
      ReachInduct(edge, w.wants, v => v in sent, x);
    }
    if x in sent {
      forall s | s in wants ensures w.Wanted(s) { ReachSeed(edge, w.wants, s); }
      SentIsWanted(g, wants, haves, shallow, sent, depth, x, sent[x]);
    }
  }

  lemma SeedIsSent(g: Graph, wants: set<int>, haves: set<int>, shallow: set<int>,
                   sent: map<int, int>, depth: int, s: int)
    requires depth >= 1 && Shortest(Edge(g, {}), Ones(wants), depth, sent)
    requires forall y :: y in sent ==> y in g && sent[y] <= depth
    requires s in SecondPass(g, wants, haves, shallow, sent, depth).wants
    ensures s in sent
  {
    hide Within;
    if s in wants {
      WithinSeed(Edge(g, {}), Ones(wants), s);
    } else {
      var c :| c in Unshallowed(sent, shallow, depth) && c in g && s in g[c];
      WithinStep(Edge(g, {}), Ones(wants), c, s, sent[c]);
    }
  }

  /** Every path within the depth is followed by the second pass, through a
      shallow point by way of its seeded parents. */
  lemma SentIsWanted(g: Graph, wants: set<int>, haves: set<int>, shallow: set<int>,
                     sent: map<int, int>, depth: int, x: int, d: int)
    requires depth >= 1 && Shortest(Edge(g, {}), Ones(wants), depth, sent)
    requires forall y :: y in sent ==> y in g && sent[y] <= depth
    requires Deep(g, wants, x, d) && d <= depth
    ensures SecondPass(g, wants, haves, shallow, sent, depth).Wanted(x)
  {
    hide Reaches;
    var w := SecondPass(g, wants, haves, shallow, sent, depth);
    var edge, ones := Edge(g, w.wantBlock), Ones(wants);
    var p :| Leads(Edge(g, {}), ones.Keys, p, x) && ones[p[0]] + |p| - 1 <= d;
    ReachSeed(edge, w.wants, p[0]);
    WithinSeed(Edge(g, {}), ones, p[0]);
    var i := 0;
    while i < |p| - 1
      invariant 0 <= i <= |p| - 1
      invariant Deep(g, wants, p[i], i + 1)
      invariant w.Wanted(p[i])
    {
      hide Within;
      assert Edge(g, {})(p[i], p[i + 1]);
      OneDeeper(g, wants, haves, shallow, sent, depth, p[i], p[i + 1], i + 1);
      WithinStep(Edge(g, {}), ones, p[i], p[i + 1], i + 1);
      i := i + 1;
    }
  }

  lemma OneDeeper(g: Graph, wants: set<int>, haves: set<int>, shallow: set<int>,
                  sent: map<int, int>, depth: int, c: int, p: int, d: int)
    requires Shortest(Edge(g, {}), Ones(wants), depth, sent)
    requires Deep(g, wants, c, d) && d < depth && Edge(g, {})(c, p)
    requires SecondPass(g, wants, haves, shallow, sent, depth).Wanted(c)
    ensures SecondPass(g, wants, haves, shallow, sent, depth).Wanted(p)
  {
    hide Reaches;
    hide Within;
    var w := SecondPass(g, wants, haves, shallow, sent, depth);
    var edge := Edge(g, w.wantBlock);
    assert c in sent && sent[c] <= d;
    if c in shallow {
      assert c in Unshallowed(sent, shallow, depth);
      assert p in w.wants;
      ReachSeed(edge, w.wants, p);
    } else {
      ReachStep(edge, w.wants, c, p);
    }
  }

  /** A minimum-depth map answers every question about exact depth. */
  lemma ShortestIsDepth(g: Graph, wants: set<int>, depth: int, sent: map<int, int>, x: int)
    requires Shortest(Edge(g, {}), Ones(wants), depth, sent)
    requires forall y :: y in sent ==> sent[y] <= depth
    ensures x in sent <==> Deep(g, wants, x, depth)
    ensures x in sent && sent[x] == depth <==> DepthIs(g, wants, x, depth)
  {
    hide Within;
    if x in sent {
      WithinMore(Edge(g, {}), Ones(wants), x, sent[x], depth);
      if sent[x] < depth {
        WithinMore(Edge(g, {}), Ones(wants), x, sent[x], depth - 1);
      }
    }
  }

  /** The commit side of a `deepen` fetch: what is sent is every commit within
      `depth` of a want that the haves do not reach past the client's grafts,
      whether it comes from the depth walk alone or from the second paint. */
  method NeededCommitsShallow(g: Graph, wants: set<int>, haves: set<int>, shallow: set<int>, depth: int,
                              policy: BandPolicy) returns (r: Deepened)
    requires Descends(g) && policy.Valid()
    ensures r.BadDepth? <==> depth <= 0
    ensures r.Deepened? ==> Distinct(r.answer.needed) && forall x :: x in r.answer.needed <==>
      Deep(g, wants, x, depth) && !Reaches(Edge(g, shallow), haves, x)
    ensures r.Deepened? ==> forall x :: Deep(g, wants, x, depth) ==> x in g
    ensures r.Deepened? ==> forall x :: x in r.answer.boundary <==> DepthIs(g, wants, x, depth)
    ensures r.Deepened? ==> r.answer.shallow == r.answer.boundary - shallow
    ensures r.Deepened? ==> forall x :: x in r.answer.unshallow <==>
      x in shallow && Deep(g, wants, x, depth) && !DepthIs(g, wants, x, depth)
    ensures r.Lacks? ==>
      && r.at !in g
      && (Reaches(Edge(g, {}), wants, r.at) || Reaches(Edge(g, shallow), haves, r.at))
    ensures Closed(g) && wants + haves <= g.Keys ==> !r.Lacks?
  {
    hide Reaches;
    AllCovered(g, {}, wants);
    AllCovered(g, shallow, haves);
    hide Within;
    hide Shortest;
    if depth <= 0 {
      return BadDepth;
    }
    if wants == {} {
      forall x, d ensures !Deep(g, wants, x, d) { NothingIsDeep(g, x, d); }
      return Deepened(Shallow([], {}, {}, {}));
    }
    var classified := DepthClassify(g, wants, depth, policy);
    if classified.NotCovered? {
      return Lacks(classified.at);
    }
    var sent := classified.value.sent;
    forall x
      ensures x in sent <==> Deep(g, wants, x, depth)
      ensures x in sent && sent[x] == depth <==> DepthIs(g, wants, x, depth)
    {
      ShortestIsDepth(g, wants, depth, sent, x);
    }
    var boundary := Boundary(sent, depth);
    var needed := classified.value.pushed;
    if haves == {} {
      forall x ensures !Reaches(Edge(g, shallow), haves, x) { NothingFromNothing(Edge(g, shallow), x); }
    } else {
      var second := SecondPass(g, wants, haves, shallow, sent, depth);
      var painted := BandedPaintWalk(second, policy);
      if painted.NotCovered? {
        SecondPassWants(g, wants, haves, shallow, sent, depth, painted.at);
        return Lacks(painted.at);
      }
      needed := painted.value;
      forall x ensures second.Wanted(x) <==> x in sent {
        SecondPassWants(g, wants, haves, shallow, sent, depth, x);
      }
    }
    r := Deepened(Shallow(needed, boundary - shallow, Unshallowed(sent, shallow, depth), boundary));
  }

  lemma NothingIsDeep(g: Graph, x: int, d: int)
    ensures !Deep(g, {}, x, d)
  {
  }

  /** A fetch with no depth: what the wants reach and the haves do not, with the
      client's shallow commits grafted parentless for both. */
  method NeededCommits(g: Graph, wants: set<int>, haves: set<int>, shallow: set<int>, policy: BandPolicy)
    returns (r: Outcome<seq<int>>)
    requires Descends(g) && policy.Valid()
    ensures r.Ok? ==> Distinct(r.value) && forall x :: x in r.value <==>
      Reaches(Edge(g, shallow), wants, x) && !Reaches(Edge(g, shallow), haves, x)
    ensures r.Ok? ==> forall x :: x in r.value && x !in shallow ==> x in g
    ensures r.NotCovered? ==>
      && r.at !in g && r.at >= r.floor
      && (Reaches(Edge(g, shallow), wants, r.at) || Reaches(Edge(g, shallow), haves, r.at))
    ensures Closed(g) && wants + haves <= g.Keys ==> r.Ok?
  {
    hide Reaches;
    AllCovered(g, shallow, wants);
    AllCovered(g, shallow, haves);
    if wants == {} {
      forall x ensures !Reaches(Edge(g, shallow), wants, x) { NothingFromNothing(Edge(g, shallow), x); }
      return Ok([]);
    }
    r := BandedPaintWalk(Walk(g, wants, haves, shallow, shallow), policy);
  }
}
