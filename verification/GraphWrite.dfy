/** Ranking one push's commits and laying them out as a graph segment. */
module GraphWrite {
  import opened Bands
  import opened Objects
  import opened TopoOrder
  import opened Numbering

  /** A commit with its parents and tree already numbered. */
  datatype Recorded = Recorded(parents: seq<nat>, root: nat, date: int)

  datatype Built = Built(segment: Segment) | UnknownParent(child: nat, parent: nat) | TooLarge(child: nat)

  /** What each parent ranks at, in a segment or among the generations read. */
  ghost function Rankings(segment: Segment, ranks: map<nat, nat>, parents: seq<nat>): seq<nat>
  {
    seq(|parents|, i requires 0 <= i < |parents| => ParentRank(segment, ranks, parents[i]))
  }

  /** The row of commit `n`, ranked against `segment` and `ranks`. */
  ghost predicate RanksRow(commits: map<nat, Recorded>, segment: Segment, ranks: map<nat, nat>, n: nat)
    requires n in commits && n in segment
  {
    var c, row := commits[n], segment[n];
    && row.parents == c.parents && row.root == c.root
    && row.generation == CorrectedDate(c.date, Rankings(segment, ranks, c.parents))
  }

  /** Every parent is ranked by the graph or recorded in the same push. */
  ghost predicate Rankable(commits: map<nat, Recorded>, ranks: map<nat, nat>)
  {
    forall n, p :: n in commits && p in commits[n].parents ==> p in commits || p in ranks
  }

  /** Everything a commit's row names fits a 32-bit slot, the last value of which means none. */
  predicate Slotted(n: nat, c: Recorded)
  {
    n < U32_MAX && c.root < U32_MAX && forall p :: p in c.parents ==> p < U32_MAX
  }

  ghost predicate ParentsOlder(commits: map<nat, Recorded>)
  {
    forall n, p :: n in commits && p in commits[n].parents ==> p < n
  }

  /** Adding a newer row leaves every older row ranked as it was. */
  lemma RowSurvives(commits: map<nat, Recorded>, segment: Segment, ranks: map<nat, nat>, n: nat, newer: nat, row: Row)
    requires n in commits && n in segment && n < newer && RanksRow(commits, segment, ranks, n)
    requires forall p :: p in commits[n].parents ==> p < n
    ensures RanksRow(commits, segment[newer := row], ranks, n)
  {
    var ps := commits[n].parents;
    assert Rankings(segment[newer := row], ranks, ps) == Rankings(segment, ranks, ps) by {
      forall i | 0 <= i < |ps|
        ensures ParentRank(segment[newer := row], ranks, ps[i]) == ParentRank(segment, ranks, ps[i])
      {
        assert ps[i] in ps;
      }
    }
  }

  /** Every row so far is its commit's, ranked against the rows so far and the ranks read. */
  ghost predicate Ranked(commits: map<nat, Recorded>, segment: Segment, ranks: map<nat, nat>)
  {
    forall n :: n in segment ==>
      && n in commits && Slotted(n, commits[n]) && RanksRow(commits, segment, ranks, n)
      && forall p :: p in commits[n].parents ==> p in commits || p in ranks
  }

  lemma NoneRanked(commits: map<nat, Recorded>, ranks: map<nat, nat>)
    ensures Ranked(commits, map[], ranks)
  {
  }

  lemma RankedGrows(commits: map<nat, Recorded>, segment: Segment, ranks: map<nat, nat>, n: nat, row: Row)
    requires ParentsOlder(commits) && Ranked(commits, segment, ranks)
    requires n in commits && Slotted(n, commits[n]) && forall m :: m in segment ==> m < n
    requires forall p :: p in commits[n].parents ==> p in segment || p in ranks
    requires var c := commits[n];
      row == Row(c.parents, c.root, CorrectedDate(c.date, Rankings(segment, ranks, c.parents)))
    ensures Ranked(commits, segment[n := row], ranks)
  {
    hide RanksRow, Rankings, CorrectedDate, Slotted;
    forall m | m in segment ensures RanksRow(commits, segment[n := row], ranks, m) {
      RowSurvives(commits, segment, ranks, m, n, row);
    }
    NewRow(commits, segment, ranks, n, row);
  }

  lemma AllRanked(commits: map<nat, Recorded>, segment: Segment, ranks: map<nat, nat>)
    requires Ranked(commits, segment, ranks) && forall n :: n in commits ==> n in segment
    ensures Rankable(commits, ranks) && segment.Keys == commits.Keys
    ensures forall n :: n in commits && n in segment ==> Slotted(n, commits[n]) && RanksRow(commits, segment, ranks, n)
  {
    hide RanksRow, Slotted;
  }

  /** The generations of `parents`, or the first one nothing ranks. */
  method ParentGenerations(parents: seq<nat>, segment: Segment, ranks: map<nat, nat>)
    returns (gens: seq<nat>, unknown: Option<nat>)
    ensures unknown.None? ==> gens == Rankings(segment, ranks, parents)
    ensures unknown.None? <==> forall p :: p in parents ==> p in segment || p in ranks
    ensures unknown.Some? ==> unknown.value in parents && unknown.value !in segment && unknown.value !in ranks
    ensures unknown.Some? ==>
      |gens| < |parents| && parents[|gens|] == unknown.value && unknown.value !in parents[..|gens|]
  {
    gens := [];
    for i := 0 to |parents|
      invariant gens == Rankings(segment, ranks, parents[..i])
      invariant forall p :: p in parents[..i] ==> p in segment || p in ranks
    {
      var p := parents[i];
      assert parents[..i + 1] == parents[..i] + [p];
      if p in segment {
        gens := gens + [segment[p].generation];
      } else if p in ranks {
        gens := gens + [ranks[p]];
      } else {
        return gens, Some(p);
      }
    }
    assert parents[..|parents|] == parents;
    unknown := None;
  }

  /** Gives every commit a generation above its parents', lowest seq first, or names
      a commit that has an unranked parent or a number too large to store. */
  method Build(commits: map<nat, Recorded>, ranks: map<nat, nat>) returns (r: Built)
    requires ParentsOlder(commits)
    ensures r.Built? <==> Rankable(commits, ranks) && forall n :: n in commits ==> Slotted(n, commits[n])
    ensures r.Built? ==> r.segment.Keys == commits.Keys
    ensures r.Built? ==> forall n :: n in commits && n in r.segment ==> RanksRow(commits, r.segment, ranks, n)
    ensures r.UnknownParent? ==>
      && r.child in commits && r.parent in commits[r.child].parents
      && r.parent !in commits && r.parent !in ranks
    ensures r.TooLarge? ==> r.child in commits && !Slotted(r.child, commits[r.child])
  {
    hide Ranked, RanksRow, Rankings, CorrectedDate, Slotted;
    var ordered := InOrder(set n: int | n in commits.Keys);
    var segment: Segment := map[];
    assert forall i :: 0 <= i < |ordered| ==> ordered[i] in AsSet(ordered);
    NoneRanked(commits, ranks);
    for i := 0 to |ordered|
      invariant forall n: nat :: n in segment <==> n in ordered[..i]
      invariant Ranked(commits, segment, ranks)
    {
      var n: nat := ordered[i];
      var c := commits[n];
      OlderFirst(commits, ordered, i);
      var gens, unknown := ParentGenerations(c.parents, segment, ranks);
      if unknown.Some? {
        return UnknownParent(n, unknown.value);
      }
      if !Slotted(n, c) {
        return TooLarge(n);
      }
      var row := Row(c.parents, c.root, CorrectedDate(c.date, gens));
      forall m | m in segment ensures m < n { assert m in ordered[..i]; }
      RankedGrows(commits, segment, ranks, n, row);
      assert ordered[..i + 1] == ordered[..i] + [n];
      segment := segment[n := row];
    }
    assert ordered[..|ordered|] == ordered;
    forall n | n in commits ensures n in segment { assert n in AsSet(ordered); }
    AllRanked(commits, segment, ranks);
    r := Built(segment);
  }

  /** `commits` is what a push hands over: each of its commits at its seq, by the numbers it resolved. */
  ghost predicate Records(w: World, p: Process, commits: map<nat, Recorded>)
    requires Buildable(w, p.toInsert, p.seqOf, p.objOf)
  {
    && commits.Keys == OwnSeqs(p.toInsert, p.seqOf)
    && forall c :: c in p.toInsert ==> RecordsOne(w, p, commits[p.seqOf[c]], c)
  }

  ghost predicate RecordsOne(w: World, p: Process, one: Recorded, c: Oid)
    requires Buildable(w, p.toInsert, p.seqOf, p.objOf) && c in p.toInsert
  {
    var body := w[c];
    && one.root == p.objOf[body.root].num && one.date == body.date
    && |one.parents| == |body.parents|
    && forall i :: 0 <= i < |body.parents| ==>
         body.parents[i] in p.seqOf && one.parents[i] == p.seqOf[body.parents[i]]
  }

  /** What `Build` promises of its segment is what the protocol asks of a push's:
      the two say the same of every segment. */
  lemma BuildIsBuilt(w: World, p: Process, commits: map<nat, Recorded>, segment: Segment)
    requires Buildable(w, p.toInsert, p.seqOf, p.objOf) && Records(w, p, commits)
    ensures IsBuilt(w, p, segment) <==>
      && segment.Keys == commits.Keys
      && forall n :: n in commits && n in segment ==> RanksRow(commits, segment, p.ranks, n)
  {
    hide RanksRow, IsRow;
    if segment.Keys == commits.Keys {
      forall c | c in p.toInsert
        ensures p.seqOf[c] in segment
        ensures IsRow(w, p, segment, c, segment[p.seqOf[c]]) <==> RanksRow(commits, segment, p.ranks, p.seqOf[c])
      {
        assert p.seqOf[c] in OwnSeqs(p.toInsert, p.seqOf);
        RowIsRow(w, p, commits, segment, c);
      }
    }
  }

  lemma RowIsRow(w: World, p: Process, commits: map<nat, Recorded>, segment: Segment, c: Oid)
    requires Buildable(w, p.toInsert, p.seqOf, p.objOf) && c in p.toInsert
    requires p.seqOf[c] in commits && p.seqOf[c] in segment && RecordsOne(w, p, commits[p.seqOf[c]], c)
    ensures IsRow(w, p, segment, c, segment[p.seqOf[c]]) <==> RanksRow(commits, segment, p.ranks, p.seqOf[c])
  {
    hide CorrectedDate, ParentRank;
    var one, row := commits[p.seqOf[c]], segment[p.seqOf[c]];
    if row.parents == one.parents {
      assert Rankings(segment, p.ranks, one.parents) ==
        seq(|row.parents|, i requires 0 <= i < |row.parents| => ParentRank(segment, p.ranks, row.parents[i]));
    }
  }

  lemma NewRow(commits: map<nat, Recorded>, segment: Segment, ranks: map<nat, nat>, n: nat, row: Row)
    requires n in commits && n !in segment && forall p :: p in commits[n].parents ==> p < n
    requires var c := commits[n];
      row == Row(c.parents, c.root, CorrectedDate(c.date, Rankings(segment, ranks, c.parents)))
    ensures RanksRow(commits, segment[n := row], ranks, n)
  {
    var ps := commits[n].parents;
    assert Rankings(segment[n := row], ranks, ps) == Rankings(segment, ranks, ps) by {
      forall i | 0 <= i < |ps|
        ensures ParentRank(segment[n := row], ranks, ps[i]) == ParentRank(segment, ranks, ps[i])
      {
        assert ps[i] in ps;
      }
    }
  }

  /** What precedes `ordered[i]` is every older commit, and only those. */
  lemma OlderFirst(commits: map<nat, Recorded>, ordered: seq<int>, i: nat)
    requires Ascending(ordered) && i < |ordered| && AsSet(ordered) == set n: int | n in commits.Keys
    ensures forall p: nat :: p in ordered[..i] ==> p < ordered[i]
    ensures forall p: nat :: p in commits && p < ordered[i] ==> p in ordered[..i]
  {
    forall p: nat | p in commits && p < ordered[i] ensures p in ordered[..i] {
      assert p in AsSet(ordered);
      var k :| 0 <= k < |ordered| && ordered[k] == p;
      assert ordered[..i][k] == p;
    }
  }

  /** The corrected date outranks every parent exactly when none of them is
      already at the ceiling of 32 bits. */
  lemma OutranksUnlessSaturated(date: int, parents: seq<nat>)
    requires forall i :: 0 <= i < |parents| ==> parents[i] <= U32_MAX
    ensures (forall i :: 0 <= i < |parents| ==> CorrectedDate(date, parents) > parents[i])
      <==> (forall i :: 0 <= i < |parents| ==> parents[i] < U32_MAX)
  {
    MaxBounds(parents);
    MaxIsMember(parents);
  }

  /** Two commits, a parent dated at the ceiling and its child. */
  ghost function AtTheCeiling(date: int): map<nat, Recorded>
  {
    map[1 := Recorded.Recorded([], 0, U32_MAX), 2 := Recorded.Recorded([1], 0, date)]
  }

  /** A child of a commit dated at the ceiling, whatever its own date, ranks level with it. */
  lemma CeilingTies(date: int, segment: Segment)
    requires segment.Keys == {1, 2} && forall n :: n in segment ==> RanksRow(AtTheCeiling(date), segment, map[], n)
    ensures segment[2].generation == segment[1].generation == U32_MAX
  {
    var commits := AtTheCeiling(date);
    assert RanksRow(commits, segment, map[], 1) && RanksRow(commits, segment, map[], 2);
    assert Rankings(segment, map[], commits[1].parents) == [];
    assert Rankings(segment, map[], commits[2].parents) == [segment[1].generation];
    assert [segment[1].generation][1..] == [];
    OutranksUnlessSaturated(date, [U32_MAX]);
  }
}
