/** Three searches of a piece of history between a ceiling and a floor: plain
    reachability, two-coloured reachability, and shortest distances.

    A band sees only an index, so each expansion is specified by the edges that
    index holds. What bands add up to over a whole history is `PaintWalk`,
    `ShallowWalk` and `MergeBase`.
*/
module Bands {
  import opened Graphs

  /** Parent lists by seq, first parent first. */
  type Graph = map<int, seq<int>>

  /** What every walk assumes of the numbering: a parent's seq is below its child's. */
  ghost predicate Descends(g: Graph)
  {
    forall c, p :: c in g && p in g[c] ==> p < c
  }

  /** A search's answer, or a commit at or above its floor that it met and could not look up. */
  datatype Outcome<T> = Ok(value: T) | NotCovered(at: int, floor: int)

  /** The parent edges of `index` out of commits at or above `floor`, except
      those out of `block` and those into `avoid`. */
  ghost function Down(index: Graph, floor: int, block: set<int>, avoid: set<int>): (int, int) -> bool
  {
    (c, p) => c >= floor && c !in block && c in index && p in index[c] && p !in avoid
  }

  /** Every seq a walk of `index` from `seeds` could name. */
  ghost function Universe(index: Graph, seeds: seq<int>): set<int>
  {
    (set s | s in seeds) + (set c, p | c in index && p in index[c] :: p)
  }

  /** Everything on the stack is a seq the walk could name. */
  ghost predicate Nameable(universe: set<int>, stack: seq<int>)
  {
    forall i :: 0 <= i < |stack| ==> stack[i] in universe
  }

  lemma NameableStart(index: Graph, seeds: seq<int>)
    ensures Nameable(Universe(index, seeds), seeds)
  {
  }

  lemma NameablePop(index: Graph, seeds: seq<int>, stack: seq<int>, top: int, more: seq<int>)
    requires |stack| > 0 && Nameable(Universe(index, seeds), stack)
    requires more == [] || (top in index && forall p :: p in more ==> p in index[top])
    ensures Nameable(Universe(index, seeds), stack[..|stack| - 1] + more)
  {
    var next := stack[..|stack| - 1] + more;
    forall i | 0 <= i < |next| ensures next[i] in Universe(index, seeds) {
      if i >= |stack| - 1 {
        assert next[i] == more[i - (|stack| - 1)];
        assert next[i] in index[top];
      }
    }
  }

  function AsSet(s: seq<int>): set<int>
  {
    set x | x in s
  }

  lemma AsSetAppend(q: seq<int>, x: int)
    ensures AsSet(q + [x]) == AsSet(q) + {x}
  {
  }

  ghost predicate Ascending(q: seq<int>)
  {
    forall i, j :: 0 <= i < j < |q| ==> q[i] < q[j]
  }

  method Pick<T>(s: set<T>) returns (x: T)
    requires s != {}
    ensures x in s
  {
    x :| x in s;
  }

  /** The least member, as an ordered map's first key. */
  method Least(s: set<int>) returns (m: int)
    requires s != {}
    ensures m in s && forall x :: x in s ==> m <= x
  {
    m := Pick(s);
    var rest := s - {m};
    while rest != {}
      invariant rest <= s && m in s
      invariant forall x :: x in s && x !in rest ==> m <= x
      decreases rest
    {
      var x := Pick(rest);
      if x < m {
        m := x;
      }
      rest := rest - {x};
    }
  }

  /** The greatest member, as an ordered map's last key. */
  method Greatest(s: set<int>) returns (m: int)
    requires s != {}
    ensures m in s && forall x :: x in s ==> x <= m
  {
    m := Pick(s);
    var rest := s - {m};
    while rest != {}
      invariant rest <= s && m in s
      invariant forall x :: x in s && x !in rest ==> x <= m
      decreases rest
    {
      var x := Pick(rest);
      if m < x {
        m := x;
      }
      rest := rest - {x};
    }
  }

  /** A set's members in the order an ordered map yields them. */
  method InOrder(s: set<int>) returns (q: seq<int>)
    ensures Ascending(q)
    ensures AsSet(q) == s
  {
    q := [];
    var rest := s;
    while rest != {}
      invariant rest <= s
      invariant Ascending(q)
      invariant AsSet(q) == s - rest
      invariant forall x, y :: x in q && y in rest ==> x < y
      decreases rest
    {
      var m := Least(rest);
      assert forall i :: 0 <= i < |q| ==> q[i] in q;
      AsSetAppend(q, m);
      q := q + [m];
      rest := rest - {m};
    }
  }

  /** The answer is two sets, what is met at or above `floor` and what is met under
      it; nothing under it, a seed included, has its parents followed. */
  method ExpandAncestors(index: Graph, seeds: seq<int>, floor: int)
    returns (r: Outcome<(set<int>, set<int>)>)
    ensures r.Ok? ==>
      forall x :: x in r.value.0 <==> x >= floor && Reaches(Down(index, floor, {}, {}), AsSet(seeds), x)
    ensures r.Ok? ==>
      forall x :: x in r.value.1 <==> x < floor && Reaches(Down(index, floor, {}, {}), AsSet(seeds), x)
    ensures r.Ok? ==> r.value.0 <= index.Keys
    ensures r.NotCovered? ==>
      r.floor == floor <= r.at && r.at !in index && Reaches(Down(index, floor, {}, {}), AsSet(seeds), r.at)
  {
    hide Reaches;
    ghost var edge := Down(index, floor, {}, {});
    ghost var from := AsSet(seeds);
    var visited: set<int> := {};
    var below: set<int> := {};
    var seen: set<int> := {};
    var stack := seeds;
    ghost var all := Universe(index, seeds);
    SweptStart(edge, from, stack);
    NameableStart(index, seeds);
    while stack != []
      invariant seen == visited + below
      invariant forall x :: x in visited ==> x >= floor && x in index
      invariant forall x :: x in below ==> x < floor
      invariant Swept(edge, from, seen, stack)
      invariant Nameable(all, stack)
      decreases all - seen, |stack|
    {
      var top := stack[|stack| - 1];
      var more := [];
      if top !in seen {
        if top < floor {
          below := below + {top};
        } else if top in index {
          visited := visited + {top};
          more := index[top];
        } else {
          return NotCovered(top, floor);
        }
      }
      SweptPop(edge, from, seen, stack, more);
      NameablePop(index, seeds, stack, top, more);
      stack := stack[..|stack| - 1] + more;
      seen := seen + {top};
    }
    SweptDone(edge, from, seen);
    r := Ok((visited, below));
  }

  /** Which seeds a seq was reached from: wants only, haves only, or both. */
  datatype Colour = Want | Have | Both

  function Mix(a: Colour, b: Colour): (m: Colour)
    ensures a == b ==> m == a
    ensures a != b ==> m == Both
  {
    if a == b then a else Both
  }

  /** A two-coloured search: where each colour starts, and at which commits it stops. */
  datatype Paint = Paint(seeds: map<int, Colour>, floor: int, wantBlock: set<int>, haveBlock: set<int>)
  {
    function SeedsOf(colour: Colour): set<int>
    {
      set s | s in seeds && seeds[s] == colour
    }

    /** A seed carrying both colours is blocked by neither rule. */
    function Blocks(colour: Colour): set<int>
    {
      match colour
      case Want => wantBlock
      case Have => haveBlock
      case Both => {}
    }

    /** What a colour never enters: for wants, the starting points of the haves. */
    function Avoids(colour: Colour): set<int>
    {
      if colour == Want then SeedsOf(Have) else {}
    }

    /** Where `colour` gets to inside the band. */
    ghost predicate Painted(index: Graph, colour: Colour, x: int)
    {
      Reaches(Down(index, floor, Blocks(colour), Avoids(colour)), SeedsOf(colour), x)
    }
  }

  /** `painted` with `colour` or-ed in at every seq of `seen`. */
  function Overlay(painted: map<int, Colour>, seen: set<int>, colour: Colour): map<int, Colour>
  {
    map x | x in painted.Keys + seen ::
      if x !in seen then painted[x] else if x in painted then Mix(painted[x], colour) else colour
  }

  /** All that one colour reaches, from the seeds of that colour alone. */
  method Flood(index: Graph, colour: Colour, paint: Paint) returns (r: Outcome<set<int>>)
    ensures r.Ok? ==> forall x :: x in r.value <==> paint.Painted(index, colour, x)
    ensures r.Ok? ==> forall x :: x in r.value && x >= paint.floor && x !in paint.Blocks(colour) ==> x in index
    ensures r.NotCovered? ==>
      r.floor == paint.floor <= r.at && r.at !in index && paint.Painted(index, colour, r.at)
  {
    hide Reaches;
    var block, avoid := paint.Blocks(colour), paint.Avoids(colour);
    var seeds := InOrder(paint.SeedsOf(colour));
    ghost var from := paint.SeedsOf(colour);
    ghost var edge := Down(index, paint.floor, block, avoid);
    var seen: set<int> := {};
    var stack := seeds;
    ghost var all := Universe(index, seeds);
    SweptStart(edge, from, stack);
    NameableStart(index, seeds);
    while stack != []
      invariant Swept(edge, from, seen, stack)
      invariant Nameable(all, stack)
      invariant forall x :: x in seen && x >= paint.floor && x !in block ==> x in index
      decreases all - seen, |stack|
    {
      var top := stack[|stack| - 1];
      var more := [];
      if top !in seen && top >= paint.floor && top !in block {
        if top !in index {
          return NotCovered(top, paint.floor);
        }
        more := PushParents(index[top], avoid);
        assert forall p :: p in more <==> edge(top, p);
      }
      SweptPop(edge, from, seen, stack, more);
      NameablePop(index, seeds, stack, top, more);
      stack := stack[..|stack| - 1] + more;
      seen := seen + {top};
    }
    SweptDone(edge, from, seen);
    r := Ok(seen);
  }

  /** The parents a colour is allowed to travel to. */
  method PushParents(parents: seq<int>, avoid: set<int>) returns (more: seq<int>)
    ensures forall p :: p in more <==> p in parents && p !in avoid
  {
    more := [];
    for i := 0 to |parents|
      invariant forall p :: p in more <==> p in parents[..i] && p !in avoid
    {
      if parents[i] !in avoid {
        more := more + [parents[i]];
      }
    }
  }

  /** What one band settles, commits that only wants reach, in increasing order; and
      the colours left for the bands under it. */
  datatype PaintBand = PaintBand(finalized: seq<int>, below: map<int, Colour>)

  /** What the colours reaching `x` add up to. */
  ghost predicate ColourIs(index: Graph, paint: Paint, x: int, colour: Colour)
  {
    var want := paint.Painted(index, Want, x) || paint.Painted(index, Both, x);
    var have := paint.Painted(index, Have, x) || paint.Painted(index, Both, x);
    colour == if want && have then Both else if want then Want else Have
  }

  ghost predicate AnyColour(index: Graph, paint: Paint, x: int)
  {
    exists colour :: paint.Painted(index, colour, x)
  }

  /** `band` finalizes what only want-paint reached, and carries the rest down. */
  ghost predicate IsBand(index: Graph, paint: Paint, band: PaintBand)
  {
    && Ascending(band.finalized)
    && (forall x :: x in band.finalized <==>
          x >= paint.floor && paint.Painted(index, Want, x)
          && !paint.Painted(index, Have, x) && !paint.Painted(index, Both, x))
    && (forall x :: x in band.below <==> x < paint.floor && AnyColour(index, paint, x))
    && (forall x :: x in band.below ==> ColourIs(index, paint, x, band.below[x]))
  }

  /** Every commit painted in the band, save where a colour stops, was there to be read. */
  ghost predicate Explored(index: Graph, paint: Paint)
  {
    forall colour, x :: paint.Painted(index, colour, x) && x >= paint.floor && x !in paint.Blocks(colour) ==> x in index
  }

  /** Paints down from the seeds, one colour at a time. */
  method ExpandPaint(index: Graph, paint: Paint) returns (r: Outcome<PaintBand>)
    ensures r.Ok? ==> IsBand(index, paint, r.value) && Explored(index, paint)
    ensures r.NotCovered? ==>
      r.floor == paint.floor <= r.at && r.at !in index && AnyColour(index, paint, r.at)
  {
    hide Reaches;
    var wants := Flood(index, Want, paint);
    if wants.NotCovered? { return NotCovered(wants.at, wants.floor); }
    var haves := Flood(index, Have, paint);
    if haves.NotCovered? { return NotCovered(haves.at, haves.floor); }
    var boths := Flood(index, Both, paint);
    if boths.NotCovered? { return NotCovered(boths.at, boths.floor); }
    assert Explored(index, paint) by {
      forall colour, x | paint.Painted(index, colour, x) && x >= paint.floor && x !in paint.Blocks(colour)
        ensures x in index
      {
        assert x in (match colour case Want => wants.value case Have => haves.value case Both => boths.value);
      }
    }
    r := Assemble(index, paint, wants.value, haves.value, boths.value);
  }

  /** Or-s the colours together and splits the result at the floor. */
  method Assemble(index: Graph, paint: Paint, wants: set<int>, haves: set<int>, boths: set<int>)
    returns (r: Outcome<PaintBand>)
    requires forall x :: x in wants <==> paint.Painted(index, Want, x)
    requires forall x :: x in haves <==> paint.Painted(index, Have, x)
    requires forall x :: x in boths <==> paint.Painted(index, Both, x)
    ensures r.Ok? && IsBand(index, paint, r.value)
  {
    hide Reaches;
    var painted := OverlayAll(wants, haves, boths);
    var finalized := InOrder(set x | x in painted && x >= paint.floor && painted[x] == Want);
    var band := PaintBand(finalized, map x | x in painted && x < paint.floor :: painted[x]);
    forall x ensures x in finalized <==> x in wants && x !in haves && x !in boths && x >= paint.floor {
      assert x in finalized <==> x in AsSet(finalized);
    }
    forall x ensures x in band.below <==> x < paint.floor && AnyColour(index, paint, x) {
      if AnyColour(index, paint, x) {
        var colour :| paint.Painted(index, colour, x);
        assert colour == Want || colour == Have || colour == Both;
      }
    }
    r := Ok(band);
  }

  function OverlayAll(wants: set<int>, haves: set<int>, boths: set<int>): (painted: map<int, Colour>)
    ensures painted.Keys == wants + haves + boths
    ensures forall x :: x in painted ==>
      painted[x] ==
        if x in boths || (x in wants && x in haves) then Both else if x in wants then Want else Have
  {
    Overlay(Overlay(Overlay(map[], wants, Want), haves, Have), boths, Both)
  }

  /** What one band settles, shortest distances at or above the floor; and the
      distances handed to the bands under it. */
  datatype DepthBand = DepthBand(reached: map<int, int>, below: map<int, int>)

  /** Every path within the limit is answered, by a depth some path has. */
  ghost predicate Shortest(edge: (int, int) -> bool, seeds: map<int, int>, limit: int, best: map<int, int>)
  {
    && (forall x :: x in best ==> Within(edge, seeds, x, best[x]))
    && (forall x, d :: Within(edge, seeds, x, d) && d <= limit ==> x in best && best[x] <= d)
  }

  /** Depths not yet ruled out for some seq: what a relaxation can still improve. */
  ghost function Slack(universe: set<int>, low: int, high: int, best: map<int, int>): set<(int, int)>
  {
    set x, d | x in universe && low <= d <= high && (x in best ==> d < best[x]) :: (x, d)
  }

  lemma SlackFalls(universe: set<int>, low: int, high: int, best: map<int, int>, x: int, d: int)
    requires x in universe && low <= d <= high && (x in best ==> d < best[x])
    ensures Slack(universe, low, high, best[x := d]) < Slack(universe, low, high, best)
  {
    assert (x, d) in Slack(universe, low, high, best);
    assert (x, d) !in Slack(universe, low, high, best[x := d]);
  }

  /** `x` is known, or about to be known, at depth `d` or less. */
  ghost predicate Held(best: map<int, int>, stack: seq<(int, int)>, x: int, d: int)
  {
    (x in best && best[x] <= d) || exists i :: 0 <= i < |stack| && stack[i].0 == x && stack[i].1 <= d
  }

  /** What a relaxation keeps: every depth held or stacked is some path's, and
      whatever is held below the limit has its successors held or stacked. */
  ghost predicate Relaxing(edge: (int, int) -> bool, seeds: map<int, int>, limit: int,
                           best: map<int, int>, stack: seq<(int, int)>)
  {
    && (forall x :: x in best ==> Within(edge, seeds, x, best[x]))
    && (forall i :: 0 <= i < |stack| ==> Within(edge, seeds, stack[i].0, stack[i].1))
    && (forall s :: s in seeds ==> Held(best, stack, s, seeds[s]))
    && (forall x, y :: x in best && best[x] < limit && edge(x, y) ==> Held(best, stack, y, best[x] + 1))
  }

  lemma RelaxStart(edge: (int, int) -> bool, seeds: map<int, int>, limit: int, stack: seq<(int, int)>)
    requires forall i :: 0 <= i < |stack| ==> stack[i].0 in seeds && stack[i].1 == seeds[stack[i].0]
    requires forall s :: s in seeds ==> Held(map[], stack, s, seeds[s])
    ensures Relaxing(edge, seeds, limit, map[], stack)
  {
    forall i | 0 <= i < |stack| ensures Within(edge, seeds, stack[i].0, stack[i].1) {
      WithinSeed(edge, seeds, stack[i].0);
    }
  }

  /** What was held stays held when the top of the stack moves into `best`. */
  lemma HeldPop(best: map<int, int>, stack: seq<(int, int)>, next: map<int, int>, more: seq<(int, int)>, x: int, d: int)
    requires |stack| > 0 && Held(best, stack, x, d)
    requires forall y :: y in best ==> y in next && next[y] <= best[y]
    requires var (at, depth) := stack[|stack| - 1]; at in next && next[at] <= depth
    ensures Held(next, stack[..|stack| - 1] + more, x, d)
  {
    var rest := stack[..|stack| - 1] + more;
    if !(x in best && best[x] <= d) {
      var i :| 0 <= i < |stack| && stack[i].0 == x && stack[i].1 <= d;
      if i < |stack| - 1 {
        assert rest[i] == stack[i];
      }
    }
  }

  lemma HeldMore(best: map<int, int>, rest: seq<(int, int)>, more: seq<(int, int)>, x: int, d: int)
    requires (x, d) in more
    ensures Held(best, rest + more, x, d)
  {
    var j :| 0 <= j < |more| && more[j] == (x, d);
    assert (rest + more)[|rest| + j] == more[j];
  }

  /** A depth no better than the one held is dropped. */
  lemma RelaxSkip(edge: (int, int) -> bool, seeds: map<int, int>, limit: int,
                  best: map<int, int>, stack: seq<(int, int)>)
    requires |stack| > 0 && Relaxing(edge, seeds, limit, best, stack)
    requires var (at, depth) := stack[|stack| - 1]; at in best && best[at] <= depth
    ensures Relaxing(edge, seeds, limit, best, stack[..|stack| - 1] + [])
  {
    hide Within;
    hide Held;
    forall s | s in seeds ensures Held(best, stack[..|stack| - 1] + [], s, seeds[s]) {
      HeldPop(best, stack, best, [], s, seeds[s]);
    }
    forall x, y | x in best && best[x] < limit && edge(x, y)
      ensures Held(best, stack[..|stack| - 1] + [], y, best[x] + 1)
    {
      HeldPop(best, stack, best, [], y, best[x] + 1);
    }
  }

  /** A better depth replaces the one held, and the vertex expands again. */
  lemma RelaxBetter(edge: (int, int) -> bool, seeds: map<int, int>, limit: int,
                    best: map<int, int>, stack: seq<(int, int)>, at: int, depth: int, more: seq<(int, int)>)
    requires |stack| > 0 && stack[|stack| - 1] == (at, depth)
    requires Relaxing(edge, seeds, limit, best, stack)
    requires at in best ==> depth < best[at]
    requires forall j :: 0 <= j < |more| ==> edge(at, more[j].0) && more[j].1 == depth + 1
    requires forall y :: depth < limit && edge(at, y) ==> (y, depth + 1) in more
    ensures Relaxing(edge, seeds, limit, best[at := depth], stack[..|stack| - 1] + more)
  {
    hide Within;
    hide Held;
    var next, rest := best[at := depth], stack[..|stack| - 1] + more;
    forall i | 0 <= i < |rest| ensures Within(edge, seeds, rest[i].0, rest[i].1) {
      if i >= |stack| - 1 {
        WithinStep(edge, seeds, at, rest[i].0, depth);
      }
    }
    forall s | s in seeds ensures Held(next, rest, s, seeds[s]) {
      HeldPop(best, stack, next, more, s, seeds[s]);
    }
    forall x, y | x in next && next[x] < limit && edge(x, y) ensures Held(next, rest, y, next[x] + 1) {
      if x == at {
        HeldMore(next, stack[..|stack| - 1], more, y, depth + 1);
      } else {
        HeldPop(best, stack, next, more, y, best[x] + 1);
      }
    }
  }

  lemma RelaxDone(edge: (int, int) -> bool, seeds: map<int, int>, limit: int, best: map<int, int>)
    requires Relaxing(edge, seeds, limit, best, [])
    ensures Shortest(edge, seeds, limit, best)
  {
    assert Relaxed(edge, seeds, best, limit) by {
      forall x, y | x in best && best[x] < limit && edge(x, y) ensures y in best && best[y] <= best[x] + 1 {
        assert Held(best, [], y, best[x] + 1);
      }
      forall x | x in seeds ensures x in best && best[x] <= seeds[x] {
        assert Held(best, [], x, seeds[x]);
      }
    }
    forall x, d | Within(edge, seeds, x, d) && d <= limit ensures x in best && best[x] <= d {
      RelaxedIsMinimal(edge, seeds, best, limit, x, d);
    }
  }

  lemma Bounds(seeds: map<int, int>, limit: int) returns (low: int, high: int)
    ensures low <= limit <= high
    ensures forall s :: s in seeds ==> low <= seeds[s] <= high
    ensures (forall s :: s in seeds ==> seeds[s] <= limit) ==> high == limit
    decreases |seeds|
  {
    if seeds.Keys == {} {
      return limit, limit;
    }
    var s := PickGhost(seeds.Keys);
    var rest := seeds - {s};
    low, high := Bounds(rest, limit);
    assert forall t :: t in seeds && t != s ==> t in rest && rest[t] == seeds[t];
    low := if seeds[s] < low then seeds[s] else low;
    high := if seeds[s] > high then seeds[s] else high;
  }

  lemma PickGhost<T>(s: set<T>) returns (x: T)
    requires s != {}
    ensures x in s
  {
    x :| x in s;
  }

  /** Everything stacked is a seq and a depth the relaxation could name. */
  ghost predicate InReach(universe: set<int>, low: int, high: int, best: map<int, int>, stack: seq<(int, int)>)
  {
    && (forall i :: 0 <= i < |stack| ==> stack[i].0 in universe && low <= stack[i].1 <= high)
    && (forall x :: x in best ==> best[x] <= high)
  }

  /** A commit's parents, each one deeper than it. */
  function Deeper(parents: seq<int>, depth: int): (more: seq<(int, int)>)
    ensures forall p, d :: (p, d) in more <==> p in parents && d == depth + 1
    ensures forall j :: 0 <= j < |more| ==> more[j].0 in parents && more[j].1 == depth + 1
  {
    if parents == [] then [] else [(parents[0], depth + 1)] + Deeper(parents[1..], depth)
  }

  lemma InReachPop(index: Graph, from: seq<int>, low: int, high: int,
                   best: map<int, int>, stack: seq<(int, int)>, at: int, depth: int)
    requires |stack| > 0 && InReach(Universe(index, from), low, high, best, stack)
    requires at in index && low <= depth < high
    ensures InReach(Universe(index, from), low, high, best, stack[..|stack| - 1] + Deeper(index[at], depth))
  {
    var more := Deeper(index[at], depth);
    var rest := stack[..|stack| - 1] + more;
    forall i | 0 <= i < |rest| ensures rest[i].0 in Universe(index, from) && low <= rest[i].1 <= high {
      if i >= |stack| - 1 {
        assert rest[i] == more[i - (|stack| - 1)];
        assert rest[i].0 in index[at];
        ParentNameable(index, from, at, rest[i].0);
      }
    }
  }

  lemma ParentNameable(index: Graph, from: seq<int>, c: int, p: int)
    requires c in index && p in index[c]
    ensures p in Universe(index, from)
  {
  }

  /** Shortest distances from the seeds, up to `limit`, for commits at or above `floor`.

      A commit already settled is opened again when a shorter way to it turns up. */
  method ExpandDepth(index: Graph, seeds: map<int, int>, floor: int, limit: int)
    returns (r: Outcome<DepthBand>)
    ensures r.Ok? ==> Shortest(Down(index, floor, {}, {}), seeds, limit, r.value.reached + r.value.below)
    ensures r.Ok? ==> (forall x :: x in r.value.reached ==> floor <= x && x in index)
                      && (forall x :: x in r.value.below ==> x < floor)
    ensures r.Ok? && (forall s :: s in seeds ==> seeds[s] <= limit) ==>
      (forall x :: x in r.value.reached ==> r.value.reached[x] <= limit)
      && (forall x :: x in r.value.below ==> r.value.below[x] <= limit)
    ensures r.NotCovered? ==>
      r.floor == floor <= r.at && r.at !in index && Reaches(Down(index, floor, {}, {}), seeds.Keys, r.at)
  {
    hide Within;
    hide Reaches;
    hide Held;
    ghost var edge := Down(index, floor, {}, {});
    var from := InOrder(seeds.Keys);
    ghost var all := Universe(index, from);
    ghost var low, high := Bounds(seeds, limit);
    var best: map<int, int> := map[];
    var stack := Zip(from, seeds);
    RelaxStart(edge, seeds, limit, stack);
    while stack != []
      invariant Relaxing(edge, seeds, limit, best, stack)
      invariant InReach(all, low, high, best, stack)
      decreases Slack(all, low, high, best), |stack|
    {
      var (at, depth) := stack[|stack| - 1];
      if at in best && best[at] <= depth {
        RelaxSkip(edge, seeds, limit, best, stack);
        stack := stack[..|stack| - 1] + [];
        continue;
      }
      var more := [];
      if at >= floor && depth < limit {
        if at !in index {
          WithinReaches(edge, seeds, at, depth);
          return NotCovered(at, floor);
        }
        more := Deeper(index[at], depth);
        InReachPop(index, from, low, high, best, stack, at, depth);
      }
      SlackFalls(all, low, high, best, at, depth);
      RelaxBetter(edge, seeds, limit, best, stack, at, depth, more);
      best := best[at := depth];
      stack := stack[..|stack| - 1] + more;
    }
    RelaxDone(edge, seeds, limit, best);
    var gone := set x | x in best && x >= floor && x !in index;
    var missing := InOrder(gone);
    if missing != [] {
      assert missing[0] in AsSet(missing);
      WithinReaches(edge, seeds, missing[0], best[missing[0]]);
      return NotCovered(missing[0], floor);
    }
    assert gone == {};
    r := Ok(SplitAt(best, floor));
    forall x | x in r.value.reached ensures x in index {
      assert x !in gone;
    }
  }

  function SplitAt(best: map<int, int>, floor: int): (band: DepthBand)
    ensures forall x :: x in band.reached <==> x in best && x >= floor
    ensures forall x :: x in band.below <==> x in best && x < floor
    ensures band.reached + band.below == best
  {
    DepthBand(map x | x in best && x >= floor :: best[x], map x | x in best && x < floor :: best[x])
  }

  /** The seeds paired with their depths, in seq order. */
  function Zip(from: seq<int>, seeds: map<int, int>): (stack: seq<(int, int)>)
    requires AsSet(from) == seeds.Keys
    ensures |stack| == |from|
    ensures forall i :: 0 <= i < |stack| ==> stack[i].0 in seeds && stack[i].1 == seeds[stack[i].0]
    ensures forall s :: s in seeds ==> Held(map[], stack, s, seeds[s])
  {
    assert forall i :: 0 <= i < |from| ==> from[i] in AsSet(from);
    var stack := seq(|from|, i requires 0 <= i < |from| => (from[i], seeds[from[i]]));
    assert forall s :: s in seeds ==> Held(map[], stack, s, seeds[s]) by {
      forall s | s in seeds ensures Held(map[], stack, s, seeds[s]) {
        assert s in AsSet(from);
        var i :| 0 <= i < |from| && from[i] == s;
        assert stack[i].0 == s;
      }
    }
    stack
  }
}
