/** What every interleaving of pushes keeps.

    The conclusion is the premise of every walk: in each reachable state the
    indexed graph descends and is closed under parents.
*/
module NumberingSafety {
  import opened Graphs
  import opened Bands
  import opened Schedule
  import opened Objects
  import opened TopoOrder
  import opened Numbering

  ghost predicate Injective(ids: map<Oid, Identity>)
  {
    forall a, b :: a in ids && b in ids && ids[a] == ids[b] ==> a == b
  }

  /** A numbered commit's parents are numbered, with strictly smaller seqs. */
  ghost predicate Parented(w: World, ids: map<Oid, Identity>)
  {
    forall c :: c in ids && ids[c].kind == Commit ==> c in w && ParentsBelow(w, ids, c)
  }

  ghost predicate ParentsBelow(w: World, ids: map<Oid, Identity>, c: Oid)
    requires c in w && c in ids
  {
    forall i :: 0 <= i < |w[c].parents| ==> IsBelow(ids, w[c].parents[i], ids[c].num)
  }

  ghost predicate IsBelow(ids: map<Oid, Identity>, p: Oid, num: nat)
  {
    p in ids && ids[p].kind == Commit && ids[p].num < num
  }

  ghost predicate IdsOk(w: World, s: State)
  {
    && (forall k: Kind :: k in s.next)
    && (forall o :: o in s.ids ==> s.ids[o].num < s.next[s.ids[o].kind])
    && Injective(s.ids)
    && Parented(w, s.ids)
  }

  /** A commit's generation: what its history alone makes it. */
  ghost function Gen(w: World, ids: map<Oid, Identity>, c: Oid): nat
    requires Parented(w, ids) && c in ids && ids[c].kind == Commit
    decreases ids[c].num, 1
  {
    CorrectedDate(w[c].date, ParentGens(w, ids, c))
  }

  ghost function ParentGens(w: World, ids: map<Oid, Identity>, c: Oid): (gens: seq<nat>)
    requires Parented(w, ids) && c in ids && ids[c].kind == Commit
    ensures |gens| == |w[c].parents|
    decreases ids[c].num, 0
  {
    seq(|w[c].parents|, i requires 0 <= i < |w[c].parents| =>
      assert IsBelow(ids, w[c].parents[i], ids[c].num); Gen(w, ids, w[c].parents[i]))
  }

  /** Numbering more objects changes no commit's generation. */
  lemma {:induction false} GenStable(w: World, ids: map<Oid, Identity>, more: map<Oid, Identity>, c: Oid)
    requires Parented(w, ids) && Parented(w, more) && c in ids && ids[c].kind == Commit
    requires forall o :: o in ids ==> o in more && more[o] == ids[o]
    ensures Gen(w, ids, c) == Gen(w, more, c)
    decreases ids[c].num
  {
    var ps := w[c].parents;
    forall i | 0 <= i < |ps|
      ensures IsBelow(ids, ps[i], ids[c].num) && IsBelow(more, ps[i], ids[c].num)
      ensures Gen(w, ids, ps[i]) == Gen(w, more, ps[i])
    {
      assert IsBelow(ids, ps[i], ids[c].num);
      GenStable(w, ids, more, ps[i]);
    }
    assert ParentGens(w, ids, c) == ParentGens(w, more, c);
  }

  /** The row identity and content give commit `c`, and no other. */
  ghost predicate RowIs(w: World, ids: map<Oid, Identity>, c: Oid, row: Row)
    requires Parented(w, ids) && c in ids && ids[c].kind == Commit
  {
    && |row.parents| == |w[c].parents|
    && (forall i :: 0 <= i < |row.parents| ==>
          w[c].parents[i] in ids && ids[w[c].parents[i]] == Identity(Commit, row.parents[i]))
    && w[c].root in ids && ids[w[c].root] == Identity(Tree, row.root)
    && row.generation == Gen(w, ids, c)
  }

  /** Some numbered commit's row stands at `n`. */
  ghost predicate RowOk(w: World, ids: map<Oid, Identity>, n: nat, row: Row)
    requires Parented(w, ids)
  {
    exists c :: c in ids && ids[c] == Identity(Commit, n) && RowIs(w, ids, c, row)
  }

  ghost predicate SegmentOk(w: World, ids: map<Oid, Identity>, segment: Segment)
    requires Parented(w, ids)
  {
    forall n :: n in segment ==> RowOk(w, ids, n, segment[n])
  }

  ghost predicate SegmentsOk(w: World, ids: map<Oid, Identity>, segments: seq<Segment>)
    requires Parented(w, ids)
  {
    && (forall i :: 0 <= i < |segments| ==> SegmentOk(w, ids, segments[i]))
    && ParentsIndexed(Index(segments))
  }

  ghost predicate ParentsIndexed(index: Segment)
  {
    forall n, i :: n in index && 0 <= i < |index[n].parents| ==> index[n].parents[i] in index
  }

  /** Two rows at one seq are one row: the seq fixes the commit. */
  lemma RowsAgree(w: World, ids: map<Oid, Identity>, n: nat, a: Row, b: Row)
    requires Parented(w, ids) && Injective(ids)
    requires RowOk(w, ids, n, a) && RowOk(w, ids, n, b)
    ensures a == b
  {
    var c :| c in ids && ids[c] == Identity(Commit, n) && RowIs(w, ids, c, a);
    var d :| d in ids && ids[d] == Identity(Commit, n) && RowIs(w, ids, d, b);
    assert c == d;
    forall i | 0 <= i < |a.parents| ensures a.parents[i] == b.parents[i] {
      assert ids[w[c].parents[i]] == Identity(Commit, a.parents[i]);
    }
    assert a.parents == b.parents;
  }

  lemma RowStable(w: World, ids: map<Oid, Identity>, more: map<Oid, Identity>, n: nat, row: Row)
    requires Parented(w, ids) && Parented(w, more)
    requires forall o :: o in ids ==> o in more && more[o] == ids[o]
    requires RowOk(w, ids, n, row)
    ensures RowOk(w, more, n, row)
  {
    var c :| c in ids && ids[c] == Identity(Commit, n) && RowIs(w, ids, c, row);
    GenStable(w, ids, more, c);
    assert RowIs(w, more, c, row);
  }

  /** The join of segments that are each right is right. */
  lemma {:induction false} IndexOk(w: World, ids: map<Oid, Identity>, segments: seq<Segment>)
    requires Parented(w, ids)
    requires forall i :: 0 <= i < |segments| ==> SegmentOk(w, ids, segments[i])
    ensures SegmentOk(w, ids, Index(segments))
  {
    if segments != [] {
      IndexOk(w, ids, segments[..|segments| - 1]);
    }
  }

  /** Listing one more right segment keeps every row already indexed. */
  lemma IndexGrows(w: World, ids: map<Oid, Identity>, segments: seq<Segment>, segment: Segment)
    requires Parented(w, ids) && Injective(ids)
    requires forall i :: 0 <= i < |segments| ==> SegmentOk(w, ids, segments[i])
    requires SegmentOk(w, ids, segment)
    ensures Index(segments + [segment]) == Index(segments) + segment
    ensures forall n :: n in Index(segments) ==>
      && n in Index(segments + [segment])
      && Index(segments + [segment])[n] == Index(segments)[n]
  {
    assert (segments + [segment])[..|segments|] == segments;
    IndexOk(w, ids, segments);
    forall n | n in Index(segments) && n in segment ensures Index(segments)[n] == segment[n] {
      RowsAgree(w, ids, n, Index(segments)[n], segment[n]);
    }
  }

  // ------------------------------------------------------------ processes

  function Stage(phase: Phase): nat
  {
    match phase
    case Reading => 0
    case Planned => 1
    case Located => 2
    case Numbered => 3
    case Resolved => 4
    case Ranked => 5
    case Recorded => 6
    case Done => 7
    case Stopped => 8
  }

  /** `o` is called `id`: in the store, or by this process once it records. */
  ghost predicate Calls(ids: map<Oid, Identity>, mine: map<Oid, Identity>, o: Oid, id: Identity)
  {
    (o in mine && mine[o] == id) || (o in ids && ids[o] == id)
  }

  /** Numbers allocated and not yet recorded: within the counters, each used
      once, and none of them in the store. */
  ghost predicate MineOk(s: State, mine: map<Oid, Identity>)
    requires forall k: Kind :: k in s.next
  {
    && (forall o :: o in mine ==> mine[o].num < s.next[mine[o].kind])
    && Injective(mine)
    && Apart(mine, s.ids)
  }

  ghost predicate Apart(a: map<Oid, Identity>, b: map<Oid, Identity>)
  {
    forall o, q :: o in a && q in b ==> a[o] != b[q]
  }

  /** What was read stays true: an identity, once given, is permanent. */
  ghost predicate KnownOk(ids: map<Oid, Identity>, known: map<Oid, Option<Identity>>)
  {
    forall o :: o in known && known[o].Some? ==> o in ids && ids[o] == known[o].value
  }

  ghost predicate SeqsOk(ids: map<Oid, Identity>, mine: map<Oid, Identity>, seqOf: map<Oid, nat>)
  {
    forall c :: c in seqOf ==> Calls(ids, mine, c, Identity(Commit, seqOf[c]))
  }

  ghost predicate ObjectsOk(ids: map<Oid, Identity>, mine: map<Oid, Identity>, objOf: map<Oid, Identity>)
  {
    forall o :: o in objOf ==> Calls(ids, mine, o, objOf[o])
  }

  /** A commit the push leaves alone is numbered and indexed. */
  ghost predicate Settled(s: State, c: Oid)
  {
    c in s.ids && s.ids[c].kind == Commit && s.ids[c].num in Index(s.segments)
  }

  ghost predicate LocatedOk(s: State, commits: set<Oid>, toInsert: seq<Oid>)
  {
    && (forall c :: c in commits ==> c in toInsert || Settled(s, c))
    && (forall c :: c in toInsert ==> c in commits)
    && Distinct(toInsert)
  }

  /** A commit numbered here sits above every parent this push resolved. */
  ghost predicate MineAbove(w: World, commits: set<Oid>, toInsert: seq<Oid>, seqOf: map<Oid, nat>,
                            mine: map<Oid, Identity>)
  {
    && (forall c :: c in toInsert ==> c in seqOf)
    && (forall c :: c in mine && mine[c].kind == Commit ==> c in commits && c in toInsert)
    && (forall c, q :: c in mine && mine[c].kind == Commit && c in w && q in w[c].parents && q in seqOf ==>
          seqOf[q] < mine[c].num)
  }

  ghost predicate RanksOk(w: World, segments: seq<Segment>, toInsert: seq<Oid>, seqOf: map<Oid, nat>,
                          objOf: map<Oid, Identity>, ranks: map<nat, nat>)
  {
    && Buildable(w, toInsert, seqOf, objOf)
    && Outside(w, toInsert, seqOf) <= ranks.Keys
    && (forall n :: n in ranks ==> n in Index(segments) && ranks[n] == Index(segments)[n].generation)
  }

  ghost predicate DoneOk(s: State, commits: set<Oid>)
  {
    forall c :: c in commits ==> Settled(s, c)
  }

  ghost predicate NoCommits(kinds: seq<Kind>)
  {
    forall k :: k in kinds ==> k != Commit
  }

  ghost predicate ProcessOk(w: World, s: State, p: Process)
    requires forall k: Kind :: k in s.next
  {
    var stage := Stage(p.phase);
    && WellFormed(w, p.push)
    && KnownOk(s.ids, p.known)
    && MineOk(s, p.mine)
    && (stage < 3 || stage > 5 ==> p.mine == map[])
    && (1 <= stage <= 6 ==> IsTopo(BatchOf(w, p.push), p.order) && SeqsOk(s.ids, p.mine, p.seqOf))
    && (2 <= stage <= 6 ==> LocatedOk(s, p.push.commits, p.toInsert))
    && (stage == 2 ==> InOrderOf(p.order, p.toInsert))
    && (3 <= stage <= 6 ==> MineAbove(w, p.push.commits, p.toInsert, p.seqOf, p.mine))
    && (4 <= stage <= 6 ==> ObjectsOk(s.ids, p.mine, p.objOf))
    && (stage == 4 ==> NoCommits(p.left) && (p.unlisted.Some? || p.left != []))
    && (5 <= stage <= 6 ==> RanksOk(w, s.segments, p.toInsert, p.seqOf, p.objOf, p.ranks))
    && (stage == 7 ==> DoneOk(s, p.push.commits))
  }

  /** `q` lists some of `order`, in the same order. */
  ghost predicate InOrderOf(order: seq<Oid>, q: seq<Oid>)
  {
    forall i, j :: 0 <= i < j < |q| ==> Precedes(order, q[i], q[j])
  }

  ghost predicate Precedes(order: seq<Oid>, a: Oid, b: Oid)
  {
    exists i, j :: 0 <= i < j < |order| && order[i] == a && order[j] == b
  }

  /** The store only grows: counters, identities and indexed rows are kept. */
  ghost predicate Extends(s: State, s': State)
  {
    && (forall k: Kind :: k in s.next && k in s'.next ==> s.next[k] <= s'.next[k])
    && (forall o :: o in s.ids ==> o in s'.ids && s'.ids[o] == s.ids[o])
    && (forall n :: n in Index(s.segments) ==>
          n in Index(s'.segments) && Index(s'.segments)[n] == Index(s.segments)[n])
  }

  ghost predicate AllApart(processes: map<int, Process>)
  {
    forall a, b :: a in processes && b in processes && a != b ==> Apart(processes[a].mine, processes[b].mine)
  }

  /** What every reachable state satisfies. */
  ghost predicate Inv(w: World, s: State)
  {
    && IdsOk(w, s)
    && SegmentsOk(w, s.ids, s.segments)
    && (forall pid :: pid in s.processes ==> ProcessOk(w, s, s.processes[pid]))
    && AllApart(s.processes)
  }

  /** A process that does not move is none the wiser for what others did. */
  lemma ProcessStable(w: World, s: State, s': State, p: Process)
    requires (forall k: Kind :: k in s.next) && (forall k: Kind :: k in s'.next)
    requires ProcessOk(w, s, p) && Extends(s, s') && Apart(p.mine, s'.ids)
    ensures ProcessOk(w, s', p)
  {
    hide IsTopo;
    forall c | Settled(s, c) ensures Settled(s', c) { }
    assert MineOk(s', p.mine);
  }

  /** One process moves, the store grows, and everyone else is unaffected. */
  lemma MoveKeeps(w: World, s: State, s': State, pid: int, p: Process)
    requires Inv(w, s) && s'.processes == s.processes[pid := p]
    requires Extends(s, s') && IdsOk(w, s') && SegmentsOk(w, s'.ids, s'.segments) && ProcessOk(w, s', p)
    requires forall q :: q in s.processes && q != pid ==>
      && Apart(s.processes[q].mine, s'.ids)
      && Apart(s.processes[q].mine, p.mine)
    ensures Inv(w, s')
  {
    hide ProcessOk;
    hide SegmentsOk;
    hide IdsOk;
    IdsTotal(w, s);
    IdsTotal(w, s');
    forall q | q in s'.processes ensures ProcessOk(w, s', s'.processes[q]) {
      if q != pid {
        assert Apart(s.processes[q].mine, s'.ids);
        ProcessStable(w, s, s', s.processes[q]);
      }
    }
    forall a, b | a in s'.processes && b in s'.processes && a != b
      ensures Apart(s'.processes[a].mine, s'.processes[b].mine)
    {
      if a != pid && b != pid {
        assert Apart(s.processes[a].mine, s.processes[b].mine);
      } else if a == pid {
        assert Apart(s.processes[b].mine, p.mine);
      }
    }
  }

  lemma IdsTotal(w: World, s: State)
    requires IdsOk(w, s)
    ensures forall k: Kind :: k in s.next
  {
  }

  /** A step that touches only its own process, taking no numbers. */
  lemma QuietMoveKeeps(w: World, s: State, s': State, pid: int, p: Process)
    requires Inv(w, s) && s' == s.(processes := s.processes[pid := p])
    requires ProcessOk(w, s, p)
    requires p.mine == map[] || (pid in s.processes && p.mine == s.processes[pid].mine)
    ensures Inv(w, s')
  {
    hide IsTopo;
    assert ProcessOk(w, s', p);
    forall q | q in s.processes && q != pid
      ensures Apart(s.processes[q].mine, s'.ids) && Apart(s.processes[q].mine, p.mine)
    {
      if p.mine != map[] {
        assert Apart(s.processes[q].mine, s.processes[pid].mine);
      }
    }
    MoveKeeps(w, s, s', pid, p);
  }

  // ---------------------------------------------------------------- steps

  lemma BeginKeeps(w: World, s: State, s': State, pid: int)
    requires Inv(w, s) && Begin(w, s, s', pid)
    ensures Inv(w, s')
  {
    var push :| WellFormed(w, push) && s' == s.(processes := s.processes[pid := Fresh(push, 0)]);
    QuietMoveKeeps(w, s, s', pid, Fresh(push, 0));
  }

  lemma LearnKeeps(w: World, s: State, s': State, pid: int)
    requires Inv(w, s) && Learn(s, s', pid)
    ensures Inv(w, s')
  {
    hide IsTopo;
    hide SegmentsOk;
    hide AllApart;
    hide WellFormed;
    hide MineOk;
    hide SeqsOk;
    hide LocatedOk;
    hide InOrderOf;
    hide MineAbove;
    hide ObjectsOk;
    hide NoCommits;
    hide RanksOk;
    hide DoneOk;
    var p := s.processes[pid];
    assert ProcessOk(w, s, p);
    QuietMoveKeeps(w, s, s', pid, s'.processes[pid]);
  }

  /** Everything resolved, from an earlier read or now, is what the store says. */
  lemma ResolvedOk(w: World, s: State, p: Process)
    requires KnownOk(s.ids, p.known)
    ensures SeqsOk(s.ids, map[], ResolvedCommits(w, s, p))
    ensures ObjectsOk(s.ids, map[], ResolvedObjects(w, s, p))
  {
  }

  lemma ResolveKeeps(w: World, s: State, s': State, pid: int)
    requires Inv(w, s) && Resolve(w, s, s', pid)
    ensures Inv(w, s')
  {
    hide IsTopo;
    hide SegmentsOk;
    hide AllApart;
    hide WellFormed;
    hide KnownOk;
    hide MineOk;
    hide SeqsOk;
    hide LocatedOk;
    hide InOrderOf;
    hide MineAbove;
    hide ObjectsOk;
    hide NoCommits;
    hide RanksOk;
    hide DoneOk;
    var p := s.processes[pid];
    assert ProcessOk(w, s, p);
    ResolvedOk(w, s, p);
    hide ResolvedCommits;
    QuietMoveKeeps(w, s, s', pid, s'.processes[pid]);
  }

  lemma LocatedIsOk(w: World, s: State, p: Process, missing: set<Oid>)
    requires WellFormed(w, p.push) && IsTopo(BatchOf(w, p.push), p.order) && SeqsOk(s.ids, map[], p.seqOf)
    requires missing == set c | c in p.order && !HasEntry(s, p.seqOf, c)
    ensures LocatedOk(s, p.push.commits, Filter(p.order, missing))
    ensures InOrderOf(p.order, Filter(p.order, missing))
  {
    hide Index;
    var toInsert := Filter(p.order, missing);
    forall c | c in p.push.commits ensures c in toInsert || Settled(s, c) {
      assert c in AsSet(p.order);
      if c !in toInsert {
        assert Calls(s.ids, map[], c, Identity(Commit, p.seqOf[c]));
      }
    }
    forall c | c in toInsert ensures c in p.push.commits {
      assert c in AsSet(p.order);
    }
    FilterInOrder(p.order, missing);
  }

  lemma LocateKeeps(w: World, s: State, s': State, pid: int)
    requires Inv(w, s) && Locate(s, s', pid)
    ensures Inv(w, s')
  {
    hide IsTopo;
    hide SegmentsOk;
    hide AllApart;
    hide WellFormed;
    hide KnownOk;
    hide MineOk;
    hide SeqsOk;
    hide LocatedOk;
    hide InOrderOf;
    hide MineAbove;
    hide ObjectsOk;
    hide NoCommits;
    hide RanksOk;
    hide DoneOk;
    var p := s.processes[pid];
    assert ProcessOk(w, s, p);
    var missing := set c | c in p.order && !HasEntry(s, p.seqOf, c);
    LocatedIsOk(w, s, p, missing);
    QuietMoveKeeps(w, s, s', pid, s'.processes[pid]);
  }

  lemma {:induction false} FilterInOrder(q: seq<Oid>, keep: set<Oid>)
    ensures InOrderOf(q, Filter(q, keep))
  {
    if q != [] {
      var rest, all := Filter(q[1..], keep), Filter(q, keep);
      FilterInOrder(q[1..], keep);
      forall i, j | 0 <= i < j < |all| ensures Precedes(q, all[i], all[j]) {
        var k := if q[0] in keep then 1 else 0;
        if i >= k {
          assert Precedes(q[1..], rest[i - k], rest[j - k]);
          var x, y :| 0 <= x < y < |q[1..]| && q[1..][x] == all[i] && q[1..][y] == all[j];
          assert q[x + 1] == all[i] && q[y + 1] == all[j];
        } else {
          assert all[j] in rest;
          var y :| 0 <= y < |q[1..]| && q[1..][y] == all[j];
          assert q[0] == all[i] && q[y + 1] == all[j];
        }
      }
    }
  }

  /** A fresh block is beyond every number in use. */
  lemma BlockOk(w: World, s: State, kind: Kind, taking: seq<Oid>)
    requires IdsOk(w, s) && Distinct(taking)
    ensures var block := Block(kind, taking, s.next[kind]);
      && Injective(block) && Apart(block, s.ids)
      && (forall o :: o in block ==>
            block[o].kind == kind && s.next[kind] <= block[o].num < s.next[kind] + |taking|)
  {
    var block := Block(kind, taking, s.next[kind]);
    forall a, b | a in block && b in block && block[a] == block[b] ensures a == b {
      assert PositionOf(taking, a) == PositionOf(taking, b);
    }
  }

  /** A block taken in topological order climbs along every parent edge. */
  lemma BlockClimbs(batch: Batch, order: seq<Oid>, taking: seq<Oid>, c: Oid, q: Oid)
    requires IsTopo(batch, order) && InOrderOf(order, taking) && Distinct(taking)
    requires c in taking && c in batch && q in batch && q in batch[c] && q in taking
    ensures PositionOf(taking, q) < PositionOf(taking, c)
  {
    var i, j := PositionOf(taking, c), PositionOf(taking, q);
    assert c in AsSet(order) && q in AsSet(order);
    var k :| 0 <= k < |order| && order[k] == c;
    assert q in order[..k];
    var l :| 0 <= l < k && order[..k][l] == q;
    assert order[l] == q;
    if i <= j {
      assert false;
    }
  }

  lemma {:induction false} FilterOfInOrder(order: seq<Oid>, q: seq<Oid>, keep: set<Oid>)
    requires InOrderOf(order, q)
    ensures InOrderOf(order, Filter(q, keep))
  {
    if q != [] {
      var rest := Filter(q[1..], keep);
      assert InOrderOf(order, q[1..]) by {
        forall i, j | 0 <= i < j < |q[1..]| ensures Precedes(order, q[1..][i], q[1..][j]) {
          assert Precedes(order, q[i + 1], q[j + 1]);
        }
      }
      FilterOfInOrder(order, q[1..], keep);
      if q[0] in keep {
        forall j | 0 <= j < |rest| ensures Precedes(order, q[0], rest[j]) {
          assert rest[j] in rest;
          var k :| 0 <= k < |q[1..]| && q[1..][k] == rest[j];
          assert Precedes(order, q[0], q[k + 1]);
        }
      }
    }
  }

  /** A block names exactly the commits to insert that had no seq. */
  ghost predicate Takes(toInsert: seq<Oid>, seqOf: map<Oid, nat>, block: map<Oid, Identity>)
  {
    forall o :: o in block <==> o in toInsert && o !in seqOf
  }

  /** Every parent, in the block or resolved before it, is below its child. */
  ghost predicate Climbs(w: World, seqOf: map<Oid, nat>, block: map<Oid, Identity>)
  {
    forall c, q :: c in block && c in w && q in w[c].parents ==> ClimbsTo(seqOf, block, q, block[c].num)
  }

  ghost predicate ClimbsTo(seqOf: map<Oid, nat>, block: map<Oid, Identity>, q: Oid, num: nat)
  {
    (q in block ==> block[q].num < num) && (q in seqOf ==> seqOf[q] < num)
  }

  lemma TakingClimbs(w: World, s: State, p: Process, taking: seq<Oid>)
    requires IdsOk(w, s) && WellFormed(w, p.push) && IsTopo(BatchOf(w, p.push), p.order)
    requires SeqsOk(s.ids, map[], p.seqOf) && LocatedOk(s, p.push.commits, p.toInsert) && InOrderOf(p.order, p.toInsert)
    requires taking == Taking(p.toInsert, p.seqOf)
    ensures Takes(p.toInsert, p.seqOf, Block(Commit, taking, s.next[Commit]))
    ensures Climbs(w, p.seqOf, Block(Commit, taking, s.next[Commit]))
  {
    hide IsTopo;
    hide Index;
    var block := Block(Commit, taking, s.next[Commit]);
    FilterOfInOrder(p.order, p.toInsert, set c | c in p.toInsert && c !in p.seqOf);
    assert Takes(p.toInsert, p.seqOf, block);
    forall c, q | c in block && c in w && q in w[c].parents ensures ClimbsTo(p.seqOf, block, q, block[c].num) {
      if q in taking {
        BlockClimbs(BatchOf(w, p.push), p.order, taking, c, q);
      }
      if q in p.seqOf {
        assert Calls(s.ids, map[], q, Identity(Commit, p.seqOf[q]));
      }
    }
  }

  lemma NumberMoves(w: World, s: State, s': State, pid: int)
    requires Inv(w, s) && Number(s, s', pid)
    ensures Extends(s, s') && IdsOk(w, s') && ProcessOk(w, s', s'.processes[pid])
    ensures forall q :: q in s.processes && q != pid ==>
      && Apart(s.processes[q].mine, s.ids)
      && Apart(s.processes[q].mine, s'.processes[pid].mine)
  {
    hide IsTopo;
    hide SegmentsOk;
    hide AllApart;
    hide WellFormed;
    hide KnownOk;
    hide MineOk;
    hide SeqsOk;
    hide InOrderOf;
    hide LocatedOk;
    hide MineAbove;
    hide ObjectsOk;
    hide NoCommits;
    hide RanksOk;
    hide DoneOk;
    hide Climbs;
    hide Takes;
    hide Block;
    hide Taking;
    hide Nums;
    var p := s.processes[pid];
    assert ProcessOk(w, s, p);
    var block := Block(Commit, Taking(p.toInsert, p.seqOf), s.next[Commit]);
    TakingOk(w, s, p);
    NumberedOk(w, s, s', p, block, Nums(block));
    TakenIsApart(w, s, pid, block);
  }

  /** The block a process takes: fresh, climbing, and just what was missing. */
  lemma TakingOk(w: World, s: State, p: Process)
    requires IdsOk(w, s) && ProcessOk(w, s, p) && p.phase == Located
    ensures var taking := Taking(p.toInsert, p.seqOf);
      var block := Block(Commit, taking, s.next[Commit]);
      && Takes(p.toInsert, p.seqOf, block) && Climbs(w, p.seqOf, block)
      && Injective(block) && Apart(block, s.ids)
      && (forall o :: o in block ==>
            block[o].kind == Commit && s.next[Commit] <= block[o].num < s.next[Commit] + |taking|)
      && Nums(block).Keys == block.Keys
      && (forall o :: o in block ==> Nums(block)[o] == block[o].num)
  {
    hide IsTopo;
    hide InOrderOf;
    hide MineOk;
    hide Climbs;
    hide Takes;
    TakingOnce(s, p);
    BlockOk(w, s, Commit, Taking(p.toInsert, p.seqOf));
    TakingClimbs(w, s, p, Taking(p.toInsert, p.seqOf));
  }

  lemma NumberKeeps(w: World, s: State, s': State, pid: int)
    requires Inv(w, s) && Number(s, s', pid)
    ensures Inv(w, s')
  {
    hide Inv;
    hide ProcessOk;
    hide SegmentsOk;
    NumberMoves(w, s, s', pid);
    NumberQuiet(w, s, s', pid);
    hide Number;
    MoveKeeps(w, s, s', pid, s'.processes[pid]);
  }

  lemma NumberQuiet(w: World, s: State, s': State, pid: int)
    requires Inv(w, s) && Number(s, s', pid)
    ensures pid in s'.processes && s'.processes == s.processes[pid := s'.processes[pid]]
    ensures s'.ids == s.ids && s'.segments == s.segments && IdsOk(w, s) && SegmentsOk(w, s.ids, s.segments)
  {
  }

  lemma TakingOnce(s: State, p: Process)
    requires LocatedOk(s, p.push.commits, p.toInsert)
    ensures Distinct(Taking(p.toInsert, p.seqOf))
  {
  }

  /** Numbers at or past the counter are nobody else's. */
  lemma TakenIsApart(w: World, s: State, pid: int, block: map<Oid, Identity>)
    requires Inv(w, s)
    requires forall o :: o in block ==> s.next[block[o].kind] <= block[o].num
    ensures forall q :: q in s.processes && q != pid ==>
      && Apart(s.processes[q].mine, s.ids)
      && Apart(s.processes[q].mine, block)
  {
    forall q | q in s.processes && q != pid
      ensures Apart(s.processes[q].mine, s.ids) && Apart(s.processes[q].mine, block)
    {
      assert ProcessOk(w, s, s.processes[q]);
      assert MineOk(s, s.processes[q].mine);
    }
  }

  lemma NumberedAbove(w: World, commits: set<Oid>, toInsert: seq<Oid>, seqOf: map<Oid, nat>,
                      block: map<Oid, Identity>, nums: map<Oid, nat>)
    requires forall c :: c in toInsert ==> c in commits
    requires Takes(toInsert, seqOf, block) && Climbs(w, seqOf, block)
    requires nums.Keys == block.Keys && forall o :: o in block ==> nums[o] == block[o].num
    ensures MineAbove(w, commits, toInsert, seqOf + nums, block)
  {
    forall c, q | c in block && c in w && q in w[c].parents && q in seqOf + nums
      ensures (seqOf + nums)[q] < block[c].num
    {
      assert ClimbsTo(seqOf, block, q, block[c].num);
    }
  }

  lemma NumberedSeqs(ids: map<Oid, Identity>, seqOf: map<Oid, nat>, block: map<Oid, Identity>, nums: map<Oid, nat>)
    requires SeqsOk(ids, map[], seqOf)
    requires nums.Keys == block.Keys && forall o :: o in block ==> nums[o] == block[o].num && block[o].kind == Commit
    ensures SeqsOk(ids, block, seqOf + nums)
  {
    forall c | c in seqOf + nums ensures Calls(ids, block, c, Identity(Commit, (seqOf + nums)[c])) {
      if c !in block {
        assert Calls(ids, map[], c, Identity(Commit, seqOf[c]));
      }
    }
  }

  lemma NumberedOk(w: World, s: State, s': State, p: Process, block: map<Oid, Identity>, nums: map<Oid, nat>)
    requires IdsOk(w, s) && ProcessOk(w, s, p) && p.phase == Located
    requires s'.ids == s.ids && s'.segments == s.segments && (forall k: Kind :: k in s'.next)
    requires Takes(p.toInsert, p.seqOf, block) && Climbs(w, p.seqOf, block)
    requires nums.Keys == block.Keys && forall o :: o in block ==> nums[o] == block[o].num
    requires Injective(block) && Apart(block, s.ids)
    requires forall o :: o in block ==> block[o].kind == Commit && block[o].num < s'.next[Commit]
    ensures ProcessOk(w, s', p.(phase := Numbered, seqOf := p.seqOf + nums, mine := block))
  {
    hide IsTopo;
    hide WellFormed;
    hide KnownOk;
    hide SeqsOk;
    hide InOrderOf;
    hide MineAbove;
    hide ObjectsOk;
    hide NoCommits;
    hide RanksOk;
    hide DoneOk;
    hide Climbs;
    hide Takes;
    assert LocatedOk(s', p.push.commits, p.toInsert);
    NumberedAbove(w, p.push.commits, p.toInsert, p.seqOf, block, nums);
    NumberedSeqs(s.ids, p.seqOf, block, nums);
    assert MineOk(s', block);
  }

  lemma ReadObjectsKeeps(w: World, s: State, s': State, pid: int)
    requires Inv(w, s) && ReadObjects(w, s, s', pid)
    ensures Inv(w, s')
  {
    hide IsTopo;
    hide SegmentsOk;
    hide AllApart;
    hide WellFormed;
    hide KnownOk;
    hide MineOk;
    hide SeqsOk;
    hide LocatedOk;
    hide InOrderOf;
    hide MineAbove;
    hide ObjectsOk;
    hide RanksOk;
    hide DoneOk;
    var p := s.processes[pid];
    assert ProcessOk(w, s, p);
    ResolvedOk(w, s, p);
    ObjectsMore(s.ids, p.mine, ResolvedObjects(w, s, p));
    hide ResolvedObjects;
    QuietMoveKeeps(w, s, s', pid, s'.processes[pid]);
  }

  lemma LookUpKeeps(w: World, s: State, s': State, pid: int)
    requires Inv(w, s) && LookUp(s, s', pid)
    ensures Inv(w, s')
  {
    hide IsTopo;
    hide SegmentsOk;
    hide AllApart;
    hide WellFormed;
    hide KnownOk;
    hide MineOk;
    hide SeqsOk;
    hide LocatedOk;
    hide InOrderOf;
    hide MineAbove;
    hide ObjectsOk;
    hide RanksOk;
    hide DoneOk;
    hide Relevant;
    var p := s.processes[pid];
    assert ProcessOk(w, s, p);
    QuietMoveKeeps(w, s, s', pid, s'.processes[pid]);
  }

  lemma ObjectsMore(ids: map<Oid, Identity>, mine: map<Oid, Identity>, objOf: map<Oid, Identity>)
    requires ObjectsOk(ids, map[], objOf)
    ensures ObjectsOk(ids, mine, objOf)
  {
    forall o | o in objOf ensures Calls(ids, mine, o, objOf[o]) {
      assert Calls(ids, map[], o, objOf[o]);
    }
  }

  /** Numbers of another kind, or past the counter, join what is held. */
  lemma MineGrows(s: State, s': State, mine: map<Oid, Identity>, kind: Kind, block: map<Oid, Identity>)
    requires (forall k: Kind :: k in s.next) && (forall k: Kind :: k in s'.next)
    requires MineOk(s, mine) && s'.ids == s.ids
    requires forall k: Kind :: s.next[k] <= s'.next[k]
    requires Injective(block) && Apart(block, s.ids)
    requires forall o :: o in block ==> block[o].kind == kind && s.next[kind] <= block[o].num < s'.next[kind]
    ensures MineOk(s', mine + block)
  {
  }

  lemma NumberObjectsKeeps(w: World, s: State, s': State, pid: int)
    requires Inv(w, s) && NumberObjects(s, s', pid)
    ensures Inv(w, s')
  {
    hide IsTopo;
    hide SegmentsOk;
    hide AllApart;
    hide WellFormed;
    hide KnownOk;
    hide MineOk;
    hide SeqsOk;
    hide LocatedOk;
    hide InOrderOf;
    hide MineAbove;
    hide ObjectsOk;
    hide NoCommits;
    hide RanksOk;
    hide DoneOk;
    var p, p' := s.processes[pid], s'.processes[pid];
    assert ProcessOk(w, s, p);
    var kind := p.left[0];
    var taking :| NumberThese(s, s', pid, taking);
    var block := Block(kind, taking, s.next[kind]);
    BlockOk(w, s, kind, taking);
    MineGrows(s, s', p.mine, kind, block);
    forall o | o in block ensures o in p.push.objects && o !in p.objOf { assert o in AsSet(taking); }
    hide Block;
    hide Relevant;
    hide Unnumbered;
    NumberedObjectsOk(w, s, s', p, kind, block);
    TakenIsApart(w, s, pid, block);
    hide ProcessOk;
    assert Extends(s, s');
    MoveOwn(w, s, s', pid, p, p', block);
  }

  /** What a process held was apart from every other, and so is what it adds. */
  lemma MoveOwn(w: World, s: State, s': State, pid: int, p: Process, p': Process, block: map<Oid, Identity>)
    requires Inv(w, s) && pid in s.processes && s.processes[pid] == p
    requires s'.ids == s.ids && s'.processes == s.processes[pid := p'] && p'.mine == p.mine + block
    requires Extends(s, s') && IdsOk(w, s') && SegmentsOk(w, s'.ids, s'.segments) && ProcessOk(w, s', p')
    requires forall q :: q in s.processes && q != pid ==>
      && Apart(s.processes[q].mine, s.ids)
      && Apart(s.processes[q].mine, block)
    ensures Inv(w, s')
  {
    hide ProcessOk;
    hide SegmentsOk;
    forall q | q in s.processes && q != pid
      ensures Apart(s.processes[q].mine, s'.ids) && Apart(s.processes[q].mine, p'.mine)
    {
      assert Apart(s.processes[q].mine, s.ids) && Apart(s.processes[q].mine, block);
      assert Apart(s.processes[q].mine, p.mine);
    }
    MoveKeeps(w, s, s', pid, p');
  }

  /** Objects joining what is held unseat no commit numbered here. */
  lemma SeqsSurvive(w: World, ids: map<Oid, Identity>, p: Process, block: map<Oid, Identity>)
    requires WellFormed(w, p.push) && SeqsOk(ids, p.mine, p.seqOf) && ObjectsOk(ids, p.mine, p.objOf)
    requires MineAbove(w, p.push.commits, p.toInsert, p.seqOf, p.mine)
    requires forall o :: o in block ==> block[o].kind != Commit && o in p.push.objects && o !in p.objOf
    ensures SeqsOk(ids, p.mine + block, p.seqOf)
    ensures ObjectsOk(ids, p.mine + block, p.objOf + block)
    ensures MineAbove(w, p.push.commits, p.toInsert, p.seqOf, p.mine + block)
  {
    forall c | c in p.seqOf ensures Calls(ids, p.mine + block, c, Identity(Commit, p.seqOf[c])) {
      assert Calls(ids, p.mine, c, Identity(Commit, p.seqOf[c]));
    }
    forall o | o in p.objOf + block ensures Calls(ids, p.mine + block, o, (p.objOf + block)[o]) {
      if o !in block {
        assert Calls(ids, p.mine, o, p.objOf[o]);
      }
    }
  }

  lemma NumberedObjectsOk(w: World, s: State, s': State, p: Process, kind: Kind, block: map<Oid, Identity>)
    requires IdsOk(w, s) && ProcessOk(w, s, p) && p.phase == Resolved && p.unlisted.Some?
    requires p.left != [] && p.left[0] == kind
    requires s'.ids == s.ids && s'.segments == s.segments && (forall k: Kind :: k in s'.next)
    requires MineOk(s', p.mine + block)
    requires forall o :: o in block ==> block[o].kind == kind && o in p.push.objects && o !in p.objOf
    ensures ProcessOk(w, s', p.(objOf := p.objOf + block, mine := p.mine + block, left := p.left[1..]))
  {
    hide IsTopo;
    hide WellFormed;
    hide KnownOk;
    hide MineOk;
    hide SeqsOk;
    hide InOrderOf;
    hide MineAbove;
    hide ObjectsOk;
    hide RanksOk;
    hide DoneOk;
    assert kind in p.left;
    SeqsSurvive(w, s.ids, p, block);
    assert LocatedOk(s', p.push.commits, p.toInsert);
    forall k | k in p.left[1..] ensures k != Commit { assert k in p.left; }
  }

  lemma RankKeeps(w: World, s: State, s': State, pid: int)
    requires Inv(w, s) && Rank(w, s, s', pid)
    ensures Inv(w, s')
  {
    hide IsTopo;
    hide WellFormed;
    hide KnownOk;
    hide MineOk;
    hide SeqsOk;
    hide LocatedOk;
    hide InOrderOf;
    hide MineAbove;
    hide ObjectsOk;
    hide NoCommits;
    hide DoneOk;
    hide Buildable;
    hide Outside;
    var p := s.processes[pid];
    assert ProcessOk(w, s, p);
    var p' := s'.processes[pid];
    assert RanksOk(w, s.segments, p'.toInsert, p'.seqOf, p'.objOf, p'.ranks);
    hide RanksOk;
    QuietMoveKeeps(w, s, s', pid, p');
  }

  lemma RaceKeeps(w: World, s: State, s': State, pid: int)
    requires Inv(w, s) && Race(s, s', pid)
    ensures Inv(w, s')
  {
    hide IsTopo;
    hide SegmentsOk;
    hide AllApart;
    hide WellFormed;
    hide SeqsOk;
    hide LocatedOk;
    hide InOrderOf;
    hide MineAbove;
    hide ObjectsOk;
    hide NoCommits;
    hide RanksOk;
    hide DoneOk;
    var p := s.processes[pid];
    assert ProcessOk(w, s, p);
    assert MineOk(s, map[]) && KnownOk(s.ids, map[]);
    hide MineOk;
    hide KnownOk;
    QuietMoveKeeps(w, s, s', pid, s'.processes[pid]);
  }

  lemma StopKeeps(w: World, s: State, s': State, pid: int)
    requires Inv(w, s) && Stop(s, s', pid)
    ensures Inv(w, s')
  {
    hide IsTopo;
    hide SegmentsOk;
    hide AllApart;
    hide WellFormed;
    hide KnownOk;
    hide SeqsOk;
    hide LocatedOk;
    hide InOrderOf;
    hide MineAbove;
    hide ObjectsOk;
    hide NoCommits;
    hide RanksOk;
    hide DoneOk;
    var p := s.processes[pid];
    assert ProcessOk(w, s, p);
    assert MineOk(s, map[]);
    QuietMoveKeeps(w, s, s', pid, s'.processes[pid]);
  }

  /** What a process calls an object is what the store calls it once recorded. */
  lemma CallsRecorded(ids: map<Oid, Identity>, mine: map<Oid, Identity>, o: Oid, id: Identity)
    requires mine.Keys !! ids.Keys && Calls(ids, mine, o, id)
    ensures Calls(ids + mine, map[], o, id)
  {
  }

  lemma RecordedSeqs(ids: map<Oid, Identity>, mine: map<Oid, Identity>, seqOf: map<Oid, nat>, objOf: map<Oid, Identity>)
    requires mine.Keys !! ids.Keys && SeqsOk(ids, mine, seqOf) && ObjectsOk(ids, mine, objOf)
    ensures SeqsOk(ids + mine, map[], seqOf) && ObjectsOk(ids + mine, map[], objOf)
  {
    hide Calls;
    forall c | c in seqOf ensures Calls(ids + mine, map[], c, Identity(Commit, seqOf[c])) {
      CallsRecorded(ids, mine, c, Identity(Commit, seqOf[c]));
    }
    forall o | o in objOf ensures Calls(ids + mine, map[], o, objOf[o]) {
      CallsRecorded(ids, mine, o, objOf[o]);
    }
  }

  /** Recording keeps every parent numbered below its child. */
  lemma RecordKeepsParented(w: World, ids: map<Oid, Identity>, p: Process)
    requires Parented(w, ids) && p.mine.Keys !! ids.Keys && SeqsOk(ids, p.mine, p.seqOf)
    requires MineAbove(w, p.push.commits, p.toInsert, p.seqOf, p.mine)
    requires Buildable(w, p.toInsert, p.seqOf, p.objOf)
    ensures Parented(w, ids + p.mine)
  {
    var ids' := ids + p.mine;
    forall c | c in ids' && ids'[c].kind == Commit ensures c in w && ParentsBelow(w, ids', c) {
      if c in ids {
        forall i | 0 <= i < |w[c].parents| ensures IsBelow(ids', w[c].parents[i], ids'[c].num) {
          assert IsBelow(ids, w[c].parents[i], ids[c].num);
        }
      } else {
        forall i | 0 <= i < |w[c].parents| ensures IsBelow(ids', w[c].parents[i], ids'[c].num) {
          var q := w[c].parents[i];
          assert q in w[c].parents;
          CallsRecorded(ids, p.mine, q, Identity(Commit, p.seqOf[q]));
        }
      }
    }
  }

  lemma RecordKeepsIds(w: World, s: State, s': State, p: Process)
    requires IdsOk(w, s) && ProcessOk(w, s, p) && p.phase == Ranked && p.mine.Keys !! s.ids.Keys
    requires s'.ids == s.ids + p.mine && s'.next == s.next
    ensures IdsOk(w, s')
  {
    hide IsTopo;
    hide WellFormed;
    hide KnownOk;
    hide SeqsOk;
    hide LocatedOk;
    hide InOrderOf;
    hide MineAbove;
    hide ObjectsOk;
    hide NoCommits;
    hide DoneOk;
    hide Parented;
    hide Buildable;
    hide Outside;
    hide Index;
    RecordKeepsParented(w, s.ids, p);
    assert Injective(s'.ids);
  }

  lemma RecordKeepsSegments(w: World, s: State, s': State)
    requires IdsOk(w, s) && IdsOk(w, s') && SegmentsOk(w, s.ids, s.segments) && s'.segments == s.segments
    requires forall o :: o in s.ids ==> o in s'.ids && s'.ids[o] == s.ids[o]
    ensures SegmentsOk(w, s'.ids, s'.segments)
  {
    hide RowOk;
    hide Index;
    forall i | 0 <= i < |s.segments| ensures SegmentOk(w, s'.ids, s.segments[i]) {
      forall n | n in s.segments[i] ensures RowOk(w, s'.ids, n, s.segments[i][n]) {
        assert SegmentOk(w, s.ids, s.segments[i]);
        RowStable(w, s.ids, s'.ids, n, s.segments[i][n]);
      }
    }
  }

  lemma RecordedOk(w: World, s: State, s': State, p: Process)
    requires IdsOk(w, s) && IdsOk(w, s') && ProcessOk(w, s, p) && p.phase == Ranked && p.mine.Keys !! s.ids.Keys
    requires s'.ids == s.ids + p.mine && s'.segments == s.segments
    ensures ProcessOk(w, s', p.(phase := Recorded, mine := map[]))
  {
    hide IsTopo;
    hide WellFormed;
    hide SeqsOk;
    hide InOrderOf;
    hide ObjectsOk;
    hide NoCommits;
    hide RanksOk;
    hide DoneOk;
    hide Index;
    hide IdsOk;
    IdsTotal(w, s');
    RecordedSeqs(s.ids, p.mine, p.seqOf, p.objOf);
    assert KnownOk(s'.ids, p.known);
    assert LocatedOk(s', p.push.commits, p.toInsert);
    assert MineAbove(w, p.push.commits, p.toInsert, p.seqOf, map[]);
    assert MineOk(s', map[]);
  }

  lemma RecordKeeps(w: World, s: State, s': State, pid: int)
    requires Inv(w, s) && Record(s, s', pid)
    ensures Inv(w, s')
  {
    hide IsTopo;
    hide WellFormed;
    hide KnownOk;
    hide MineOk;
    hide SeqsOk;
    hide LocatedOk;
    hide InOrderOf;
    hide MineAbove;
    hide ObjectsOk;
    hide NoCommits;
    hide RanksOk;
    hide DoneOk;
    hide SegmentsOk;
    hide IdsOk;
    var p := s.processes[pid];
    IdsTotal(w, s);
    assert ProcessOk(w, s, p);
    RecordKeepsIds(w, s, s', p);
    RecordKeepsSegments(w, s, s');
    RecordedOk(w, s, s', p);
    forall q | q in s.processes && q != pid
      ensures Apart(s.processes[q].mine, s'.ids) && Apart(s.processes[q].mine, map[])
    {
      assert Apart(s.processes[q].mine, p.mine);
      OthersApart(w, s, q);
    }
    hide ProcessOk;
    MoveKeeps(w, s, s', pid, s'.processes[pid]);
  }

  lemma OthersApart(w: World, s: State, q: int)
    requires Inv(w, s) && q in s.processes
    ensures Apart(s.processes[q].mine, s.ids)
  {
    assert ProcessOk(w, s, s.processes[q]);
  }

  /** The row of an indexed seq is that of the one commit called it. */
  lemma IndexedGen(w: World, s: State, q: Oid, n: nat)
    requires IdsOk(w, s) && SegmentsOk(w, s.ids, s.segments)
    requires q in s.ids && s.ids[q] == Identity(Commit, n) && n in Index(s.segments)
    ensures Index(s.segments)[n].generation == Gen(w, s.ids, q)
  {
    IndexOk(w, s.ids, s.segments);
    assert RowOk(w, s.ids, n, Index(s.segments)[n]);
    var c :| c in s.ids && s.ids[c] == Identity(Commit, n) && RowIs(w, s.ids, c, Index(s.segments)[n]);
    assert c == q;
  }

  /** What is known of a push whose numbers have landed and whose segment is built. */
  ghost predicate Listing(w: World, s: State, p: Process, segment: Segment)
  {
    && IdsOk(w, s) && SegmentsOk(w, s.ids, s.segments)
    && SeqsOk(s.ids, map[], p.seqOf) && ObjectsOk(s.ids, map[], p.objOf)
    && RanksOk(w, s.segments, p.toInsert, p.seqOf, p.objOf, p.ranks)
    && IsBuilt(w, p, segment)
  }

  /** A parent is called what its seq says, and is ranked by the segment or by
      what was read of the graph. */
  lemma ParentRanked(w: World, s: State, p: Process, segment: Segment, c: Oid, i: nat)
    requires Listing(w, s, p, segment) && c in p.toInsert && i < |w[c].parents|
    ensures var row := segment[p.seqOf[c]];
      && i < |row.parents|
      && Calls(s.ids, map[], w[c].parents[i], Identity(Commit, row.parents[i]))
      && (row.parents[i] !in segment ==>
            && row.parents[i] in p.ranks && row.parents[i] in Index(s.segments)
            && p.ranks[row.parents[i]] == Index(s.segments)[row.parents[i]].generation)
  {
    hide Index;
    hide SegmentsOk;
    hide IdsOk;
    hide Calls;
    var row := segment[p.seqOf[c]];
    assert IsRow(w, p, segment, c, row);
    var q := w[c].parents[i];
    assert q in w[c].parents && p.seqOf[q] == row.parents[i];
    assert Calls(s.ids, map[], q, Identity(Commit, p.seqOf[q]));
    if row.parents[i] !in segment {
      assert row.parents[i] in Outside(w, p.toInsert, p.seqOf);
    }
  }

  /** Ranking against the segment and the graph gives each commit the
      generation its history does. */
  lemma {:induction false} BuiltGen(w: World, s: State, p: Process, segment: Segment, c: Oid)
    requires Listing(w, s, p, segment) && c in p.toInsert
    ensures c in s.ids && s.ids[c] == Identity(Commit, p.seqOf[c])
    ensures segment[p.seqOf[c]].generation == Gen(w, s.ids, c)
    decreases p.seqOf[c]
  {
    hide Index;
    hide SegmentsOk;
    hide RanksOk;
    hide ObjectsOk;
    assert Calls(s.ids, map[], c, Identity(Commit, p.seqOf[c]));
    var row := segment[p.seqOf[c]];
    assert IsRow(w, p, segment, c, row);
    var ps, gens := w[c].parents, ParentGens(w, s.ids, c);
    var ranks := seq(|row.parents|, i requires 0 <= i < |row.parents| => ParentRank(segment, p.ranks, row.parents[i]));
    forall i | 0 <= i < |ps| ensures ranks[i] == gens[i] {
      assert IsBelow(s.ids, ps[i], s.ids[c].num);
      ParentRanked(w, s, p, segment, c, i);
      if row.parents[i] in segment {
        var d :| d in p.toInsert && d in p.seqOf && p.seqOf[d] == row.parents[i];
        BuiltGen(w, s, p, segment, d);
        assert d == ps[i];
      } else {
        IndexedGen(w, s, ps[i], row.parents[i]);
      }
    }
    assert ranks == gens;
  }

  lemma BuiltRow(w: World, s: State, p: Process, segment: Segment, c: Oid)
    requires Listing(w, s, p, segment) && c in p.toInsert
    ensures RowOk(w, s.ids, p.seqOf[c], segment[p.seqOf[c]])
  {
    hide Index;
    hide SegmentsOk;
    BuiltGen(w, s, p, segment, c);
    var row := segment[p.seqOf[c]];
    assert IsRow(w, p, segment, c, row);
    forall i | 0 <= i < |row.parents|
      ensures w[c].parents[i] in s.ids && s.ids[w[c].parents[i]] == Identity(Commit, row.parents[i])
    {
      ParentRanked(w, s, p, segment, c, i);
    }
    assert Calls(s.ids, map[], w[c].root, p.objOf[w[c].root]);
    assert RowIs(w, s.ids, c, row);
  }

  /** Every row a push lists is the one identity and content give its commit,
      and every parent such a row names is listed with it or was already. */
  lemma BuiltOk(w: World, s: State, p: Process, segment: Segment)
    requires Listing(w, s, p, segment)
    ensures SegmentOk(w, s.ids, segment)
    ensures forall n, i :: n in segment && 0 <= i < |segment[n].parents| ==>
      segment[n].parents[i] in segment || segment[n].parents[i] in Index(s.segments)
  {
    hide Index;
    hide RowOk;
    forall n | n in segment
      ensures RowOk(w, s.ids, n, segment[n])
      ensures forall i :: 0 <= i < |segment[n].parents| ==>
        segment[n].parents[i] in segment || segment[n].parents[i] in Index(s.segments)
    {
      var c :| c in p.toInsert && c in p.seqOf && p.seqOf[c] == n;
      BuiltRow(w, s, p, segment, c);
      assert IsRow(w, p, segment, c, segment[n]);
      forall i | 0 <= i < |segment[n].parents|
        ensures segment[n].parents[i] in segment || segment[n].parents[i] in Index(s.segments)
      {
        ParentRanked(w, s, p, segment, c, i);
      }
    }
  }

  lemma JournalKeepsSegments(w: World, s: State, p: Process, segment: Segment)
    requires Listing(w, s, p, segment)
    ensures SegmentsOk(w, s.ids, s.segments + [segment])
    ensures Index(s.segments + [segment]) == Index(s.segments) + segment
    ensures forall n :: n in Index(s.segments) ==>
      && n in Index(s.segments + [segment])
      && Index(s.segments + [segment])[n] == Index(s.segments)[n]
  {
    BuiltOk(w, s, p, segment);
    IndexGrows(w, s.ids, s.segments, segment);
    hide Index;
    hide SegmentOk;
    hide IsBuilt;
    hide RanksOk;
    var index := Index(s.segments) + segment;
    forall n, i | n in index && 0 <= i < |index[n].parents| ensures index[n].parents[i] in index { }
    forall i | 0 <= i < |s.segments + [segment]| ensures SegmentOk(w, s.ids, (s.segments + [segment])[i]) { }
  }

  lemma JournalMoves(w: World, s: State, s': State, pid: int, segment: Segment)
    requires Inv(w, s) && JournalWith(w, s, s', pid, segment)
    ensures Extends(s, s') && SegmentsOk(w, s'.ids, s'.segments)
    ensures DoneOk(s', s.processes[pid].push.commits)
  {
    hide IsTopo;
    hide WellFormed;
    hide KnownOk;
    hide MineOk;
    hide InOrderOf;
    hide ObjectsOk;
    hide NoCommits;
    hide RanksOk;
    hide Index;
    var p := s.processes[pid];
    assert ProcessOk(w, s, p);
    assert Listing(w, s, p, segment);
    if p.toInsert != [] {
      JournalKeepsSegments(w, s, p, segment);
    }
    hide SegmentsOk;
    forall c | c in p.push.commits ensures Settled(s', c) {
      if c in p.toInsert {
        assert Calls(s.ids, map[], c, Identity(Commit, p.seqOf[c]));
        assert p.seqOf[c] in segment;
      }
    }
  }

  lemma JournalKeeps(w: World, s: State, s': State, pid: int)
    requires Inv(w, s) && Journal(w, s, s', pid)
    ensures Inv(w, s') && Extends(s, s')
  {
    hide IsTopo;
    hide WellFormed;
    hide KnownOk;
    hide SeqsOk;
    hide LocatedOk;
    hide InOrderOf;
    hide MineAbove;
    hide ObjectsOk;
    hide NoCommits;
    hide RanksOk;
    hide DoneOk;
    hide Index;
    hide SegmentsOk;
    hide IsBuilt;
    var p := s.processes[pid];
    var segment :| JournalWith(w, s, s', pid, segment);
    JournalMoves(w, s, s', pid, segment);
    assert ProcessOk(w, s, p);
    assert MineOk(s', map[]);
    assert ProcessOk(w, s', s'.processes[pid]);
    forall q | q in s.processes && q != pid
      ensures Apart(s.processes[q].mine, s'.ids) && Apart(s.processes[q].mine, map[])
    {
      OthersApart(w, s, q);
    }
    hide ProcessOk;
    MoveKeeps(w, s, s', pid, s'.processes[pid]);
  }

  // ----------------------------------------------------------------- runs

  /** Every step keeps the invariant. */
  lemma StepKeeps(w: World, s: State, s': State, pid: int)
    requires Inv(w, s) && Step(w, s, s', pid)
    ensures Inv(w, s')
  {
    hide Inv;
    if Begin(w, s, s', pid) { BeginKeeps(w, s, s', pid); }
    else if Learn(s, s', pid) { LearnKeeps(w, s, s', pid); }
    else if Resolve(w, s, s', pid) { ResolveKeeps(w, s, s', pid); }
    else if Locate(s, s', pid) { LocateKeeps(w, s, s', pid); }
    else if Number(s, s', pid) { NumberKeeps(w, s, s', pid); }
    else if ReadObjects(w, s, s', pid) { ReadObjectsKeeps(w, s, s', pid); }
    else if LookUp(s, s', pid) { LookUpKeeps(w, s, s', pid); }
    else if NumberObjects(s, s', pid) { NumberObjectsKeeps(w, s, s', pid); }
    else if Rank(w, s, s', pid) { RankKeeps(w, s, s', pid); }
    else if Record(s, s', pid) { RecordKeeps(w, s, s', pid); }
    else if Race(s, s', pid) { RaceKeeps(w, s, s', pid); }
    else if Journal(w, s, s', pid) { JournalKeeps(w, s, s', pid); }
    else { StopKeeps(w, s, s', pid); }
  }

  /** No step renumbers an object or changes an indexed row. */
  lemma StepExtends(w: World, s: State, s': State, pid: int)
    requires Inv(w, s) && Step(w, s, s', pid)
    ensures Extends(s, s')
  {
    hide Inv;
    hide Index;
    hide IsBuilt;
    hide Block;
    hide Relevant;
    hide IsTopo;
    if Journal(w, s, s', pid) {
      JournalKeeps(w, s, s', pid);
    }
  }

  lemma InitIsSafe(w: World, s: State)
    requires Init(s)
    ensures Inv(w, s)
  {
  }

  /** Every state of every run satisfies the invariant. */
  lemma {:induction false} RunIsSafe(w: World, run: seq<State>, i: nat)
    requires IsRun(w, run) && i < |run|
    ensures Inv(w, run[i])
  {
    hide Inv;
    hide Step;
    if i == 0 {
      InitIsSafe(w, run[0]);
    } else {
      RunIsSafe(w, run, i - 1);
      assert Next(w, run[i - 1], run[i - 1 + 1]);
      var pid :| Step(w, run[i - 1], run[i], pid);
      StepKeeps(w, run[i - 1], run[i], pid);
    }
  }

  /** Identity and the index only ever grow along a run. */
  lemma {:induction false} RunOnlyGrows(w: World, run: seq<State>, i: nat, j: nat)
    requires IsRun(w, run) && i <= j < |run|
    ensures Extends(run[i], run[j])
    decreases j
  {
    hide Step;
    hide Index;
    if i < j {
      RunOnlyGrows(w, run, i, j - 1);
      RunIsSafe(w, run, j - 1);
      RunIsSafe(w, run, i);
      RunIsSafe(w, run, j);
      assert Next(w, run[j - 1], run[j - 1 + 1]);
      var pid :| Step(w, run[j - 1], run[j], pid);
      StepExtends(w, run[j - 1], run[j], pid);
      InvTotal(w, run[i]);
      InvTotal(w, run[j - 1]);
      InvTotal(w, run[j]);
    }
  }

  lemma InvTotal(w: World, s: State)
    requires Inv(w, s)
    ensures forall k: Kind :: k in s.next
  {
  }

  /** In every state of every interleaving, no two objects share a kind and a
      number, a numbered commit's parents are numbered strictly below it, and
      what an object was ever called it is called still. */
  lemma IdentityIsSafe(w: World, run: seq<State>, i: nat, j: nat)
    requires IsRun(w, run) && i <= j < |run|
    ensures forall a, b :: a in run[j].ids && b in run[j].ids && run[j].ids[a] == run[j].ids[b] ==> a == b
    ensures forall c :: c in run[j].ids && run[j].ids[c].kind == Commit ==> c in w && ParentsBelow(w, run[j].ids, c)
    ensures forall o :: o in run[i].ids ==> o in run[j].ids && run[j].ids[o] == run[i].ids[o]
  {
    RunIsSafe(w, run, j);
    RunOnlyGrows(w, run, i, j);
  }

  /** Any two segments ever listed, at whatever times, agree wherever they meet:
      on parents, on the root tree and on the generation. */
  lemma SegmentsAgree(w: World, run: seq<State>, i: nat, j: nat, a: nat, b: nat, n: nat)
    requires IsRun(w, run) && i <= j < |run|
    requires a < |run[i].segments| && b < |run[j].segments|
    requires n in run[i].segments[a] && n in run[j].segments[b]
    ensures run[i].segments[a][n] == run[j].segments[b][n]
  {
    RunIsSafe(w, run, i);
    RunIsSafe(w, run, j);
    RunOnlyGrows(w, run, i, j);
    var s, t := run[i], run[j];
    hide Index;
    assert SegmentOk(w, s.ids, s.segments[a]) && SegmentOk(w, t.ids, t.segments[b]);
    assert RowOk(w, s.ids, n, s.segments[a][n]) && RowOk(w, t.ids, n, t.segments[b][n]);
    hide RowOk;
    RowStable(w, s.ids, t.ids, n, s.segments[a][n]);
    RowsAgree(w, t.ids, n, s.segments[a][n], t.segments[b][n]);
  }

  /** A push that finished left every commit it brought numbered and indexed,
      and they stay so: those another push numbered before it died included. */
  lemma DoneIsIndexed(w: World, run: seq<State>, i: nat, j: nat, pid: int, c: Oid)
    requires IsRun(w, run) && i <= j < |run|
    requires pid in run[i].processes && run[i].processes[pid].phase == Done
    requires c in run[i].processes[pid].push.commits
    ensures c in run[j].ids && run[j].ids[c].kind == Commit && run[j].ids[c].num in Index(run[j].segments)
  {
    RunIsSafe(w, run, i);
    RunOnlyGrows(w, run, i, j);
    hide Index;
    assert ProcessOk(w, run[i], run[i].processes[pid]);
    assert Settled(run[i], c);
  }

  /** The indexed commit graph, as a walk reads it. */
  ghost function GraphOf(s: State): Graph
  {
    map n: int | n in Index(s.segments).Keys :: Ints(Index(s.segments)[n].parents)
  }

  function Ints(s: seq<nat>): (r: seq<int>)
    ensures |r| == |s| && forall i :: 0 <= i < |s| ==> r[i] == s[i]
  {
    s
  }

  /** The premise of every walk holds in every state of every run: parents
      descend, and every parent of an indexed commit is indexed. */
  lemma WalksAreSafe(w: World, run: seq<State>, i: nat)
    requires IsRun(w, run) && i < |run|
    ensures Descends(GraphOf(run[i])) && Closed(GraphOf(run[i]))
  {
    RunIsSafe(w, run, i);
    var s := run[i];
    IndexOk(w, s.ids, s.segments);
    hide Index;
    var g, index := GraphOf(s), Index(s.segments);
    forall c, p | c in g && p in g[c] ensures p < c && p in g {
      assert RowOk(w, s.ids, c, index[c]);
      var o :| o in s.ids && s.ids[o] == Identity(Commit, c) && RowIs(w, s.ids, o, index[c]);
      var k :| 0 <= k < |g[c]| && g[c][k] == p;
      assert IsBelow(s.ids, w[o].parents[k], s.ids[o].num);
    }
  }
}
