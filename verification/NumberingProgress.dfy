/** What a push needs in order to finish.

    Nothing another push left undone holds one up except what its own commits stand
    on: reading only what is current and left to itself, a push finishes exactly when
    the store and the push between them supply that.
*/
module NumberingProgress {
  import opened Graphs
  import opened Bands
  import opened Objects
  import opened TopoOrder
  import opened Numbering
  import opened NumberingSafety
  import opened NumberingObjects

  /** An object this push would number: in no pack, or in that of a commit not yet indexed. */
  ghost predicate HasWork(s: State, push: Push, o: Oid)
  {
    o in push.objects &&
    (push.objects[o].packs == map[] || exists c :: c in push.objects[o].packs && c in push.commits && !Settled(s, c))
  }

  /** What the object is called, or would be once this push has numbered it. */
  ghost predicate Has(s: State, push: Push, o: Oid, kinds: set<Kind>)
  {
    if o in s.ids then s.ids[o].kind in kinds else HasWork(s, push, o) && push.objects[o].kind in kinds
  }

  /** A commit's parents are brought or indexed, and its root is a tree. */
  ghost predicate CommitSupplied(w: World, s: State, push: Push, c: Oid)
  {
    && c in w
    && (forall q :: q in w[c].parents ==> q in push.commits || Settled(s, q))
    && Has(s, push, w[c].root, {Tree})
  }

  /** An object is no commit; in a new pack it is a tree or a blob and its base is of
      its kind; and if it is a tree the index has not got, its entries are trees and blobs. */
  ghost predicate ObjectSupplied(s: State, push: Push, o: Oid)
  {
    && o in push.objects
    && var brought := push.objects[o];
    && (o in s.ids ==> s.ids[o].kind != Commit)
    && (forall c :: c in brought.packs && c in push.commits && !Settled(s, c) ==>
          && Has(s, push, o, {Tree, Blob})
          && (brought.packs[c].Some? ==> Has(s, push, brought.packs[c].value, {brought.kind})))
    && (brought.kind == Tree && o !in s.listed ==> forall n :: n in brought.children ==> Has(s, push, n, {Tree, Blob}))
  }

  /** The commits are acyclic and called nothing else; each not yet indexed has its
      parents and its root tree; and each object there is work for can be indexed. */
  ghost predicate Supplied(w: World, s: State, push: Push)
  {
    && (exists order :: IsTopo(BatchOf(w, push), order))
    && (forall c :: c in push.commits && c in s.ids ==> s.ids[c].kind == Commit)
    && (forall c :: c in push.commits && !Settled(s, c) ==> CommitSupplied(w, s, push, c))
    && (forall o :: HasWork(s, push, o) ==> ObjectSupplied(s, push, o))
  }

  /** Nothing a push has read has changed since. */
  ghost predicate Current(ids: map<Oid, Identity>, known: map<Oid, Option<Identity>>)
  {
    forall o :: o in known ==> known[o] == IdentityOf(ids, o)
  }

  /** A run in which only `pid` moves. */
  ghost predicate Alone(w: World, pid: int, run: seq<State>)
  {
    |run| > 0 && forall i :: 0 <= i < |run| - 1 ==> Step(w, run[i], run[i + 1], pid)
  }

  ghost predicate Good(w: World, s: State)
  {
    Inv(w, s) && AllCovered(s) && Named(s) && Listed(s)
  }

  lemma StepIsGood(w: World, s: State, s': State, pid: int)
    requires Good(w, s) && Step(w, s, s', pid)
    ensures Good(w, s')
  {
    hide Inv, AllCovered, Named, Listed, Step, Journal;
    StepKeeps(w, s, s', pid);
    StepCovers(w, s, s', pid);
    if Journal(w, s, s', pid) {
      JournalLists(w, s, s', pid);
    } else {
      OthersList(w, s, s', pid);
    }
  }

  lemma GoodAt(w: World, s: State, pid: int)
    requires Good(w, s) && pid in s.processes
    ensures (forall k: Kind :: k in s.next) && IdsOk(w, s) && SegmentsOk(w, s.ids, s.segments)
    ensures ProcessOk(w, s, s.processes[pid]) && Covered(s.ids, s.processes[pid]) && s.listed <= s.ids.Keys
  {
    hide ProcessOk, Covered, Named, SegmentsOk, AllApart;
  }

  // ------------------------------------------------------- what a lone push knows

  /** What was asked is answered with what the store says now. */
  ghost predicate AskedNow(w: World, s: State, p: Process)
  {
    forall c :: c in AskedCommits(w, p.push) && c in s.ids && s.ids[c].kind == Commit ==> c in p.seqOf
  }

  ghost predicate InsertsNow(s: State, p: Process)
  {
    forall c :: c in p.push.commits ==> (c in p.toInsert <==> !Settled(s, c))
  }

  /** What it took no one had as that: a commit as a commit, or an object as an object. */
  ghost predicate TookNew(s: State, p: Process)
  {
    forall o :: o in p.mine ==>
      && (p.mine[o].kind != Commit ==> o in Relevant(p) && p.unlisted.Some?)
      && (o in s.ids ==> (s.ids[o].kind == Commit <==> p.mine[o].kind != Commit))
  }

  ghost predicate FoundNow(w: World, s: State, p: Process)
  {
    && (forall o :: o in Wanted(w, p) && o in s.ids && s.ids[o].kind != Commit ==> o in p.objOf)
    && (forall o :: o in p.objOf ==> p.objOf[o].kind != Commit)
  }

  /** What it found unlisted is. */
  ghost predicate LookedNow(s: State, p: Process)
  {
    p.unlisted.Some? ==> forall o :: o in Relevant(p) ==>
      (o in p.unlisted.value <==> !(o in s.ids && s.ids[o].kind != Commit && o in s.listed))
  }

  /** What a push that has been alone since it last started knows. */
  ghost predicate Fit(w: World, s: State, p: Process)
  {
    var stage := Stage(p.phase);
    && stage != 6 && stage != 7
    && (stage <= 4 ==> Current(s.ids, p.known))
    && (1 <= stage <= 5 ==> AskedNow(w, s, p))
    && (2 <= stage <= 5 ==> InsertsNow(s, p))
    && (3 <= stage <= 5 ==> TookNew(s, p))
    && (4 <= stage <= 5 ==> FoundNow(w, s, p) && LookedNow(s, p))
    && (stage == 3 ==> forall o :: o in p.mine ==> p.mine[o].kind == Commit)
    && (stage == 5 ==> p.unlisted.Some? && Complete(w, p))
  }

  ghost predicate Same(s: State, s': State)
  {
    s'.ids == s.ids && s'.segments == s.segments && s'.listed == s.listed
  }

  /** The push has moved, the store has not, and what the push knows still holds. */
  ghost predicate Steady(w: World, s: State, s': State, pid: int)
  {
    && Same(s, s')
    && pid in s.processes && pid in s'.processes && s'.processes[pid].push == s.processes[pid].push
    && Fit(w, s', s'.processes[pid])
  }

  lemma LearnFits(w: World, s: State, s': State, pid: int)
    requires pid in s.processes && Fit(w, s, s.processes[pid]) && Learn(s, s', pid)
    ensures Steady(w, s, s', pid)
  {
    hide Index;
  }

  lemma ResolveFits(w: World, s: State, s': State, pid: int)
    requires pid in s.processes && Fit(w, s, s.processes[pid]) && Resolve(w, s, s', pid)
    ensures Steady(w, s, s', pid)
  {
    hide Index, IsTopo, AskedCommits;
    var p' := s'.processes[pid];
    forall c | c in AskedCommits(w, p'.push) && c in s.ids && s.ids[c].kind == Commit ensures c in p'.seqOf {
      assert Answer(s, s.processes[pid], c) == Some(s.ids[c]);
    }
  }

  lemma LocateFits(w: World, s: State, s': State, pid: int)
    requires Good(w, s) && pid in s.processes && Fit(w, s, s.processes[pid]) && Locate(s, s', pid)
    ensures Steady(w, s, s', pid)
  {
    GoodAt(w, s, pid);
    hide Good, Index;
    var p, p' := s.processes[pid], s'.processes[pid];
    forall c | c in p.push.commits ensures c in p'.toInsert <==> !Settled(s, c) {
      assert c in AsSet(p.order);
      assert c in AskedCommits(w, p.push);
      if c in p.seqOf {
        assert Calls(s.ids, map[], c, Identity(Commit, p.seqOf[c]));
      }
    }
  }

  lemma TookCommits(w: World, s: State, p: Process, p': Process, block: map<Oid, Identity>)
    requires AskedNow(w, s, p) && InsertsNow(s, p) && LocatedOk(s, p.push.commits, p.toInsert)
    requires block.Keys == AsSet(Taking(p.toInsert, p.seqOf)) && forall o :: o in block ==> block[o].kind == Commit
    requires p' == p.(phase := Numbered, seqOf := p.seqOf + Nums(block), mine := block)
    ensures AskedNow(w, s, p') && InsertsNow(s, p') && TookNew(s, p')
  {
    hide Settled, Relevant;
    forall o | o in p'.mine ensures !(o in s.ids && s.ids[o].kind == Commit) {
      assert o in AsSet(Taking(p.toInsert, p.seqOf));
      assert o in AskedCommits(w, p.push);
    }
  }

  lemma NumberFits(w: World, s: State, s': State, pid: int)
    requires Good(w, s) && pid in s.processes && Fit(w, s, s.processes[pid]) && Number(s, s', pid)
    ensures Steady(w, s, s', pid)
  {
    LocatedAt(w, s, pid);
    hide Good, Index, Relevant, Taking, AskedCommits;
    var p, p' := s.processes[pid], s'.processes[pid];
    var taking := Taking(p.toInsert, p.seqOf);
    var block := Block(Commit, taking, s.next[Commit]);
    assert block.Keys == AsSet(taking);
    TookCommits(w, s, p, p', block);
    hide TookNew, AskedNow, InsertsNow, Block, Nums;
    SameCommits(w, s, s', p');
  }

  lemma LocatedAt(w: World, s: State, pid: int)
    requires Good(w, s) && pid in s.processes && s.processes[pid].phase == Located
    ensures LocatedOk(s, s.processes[pid].push.commits, s.processes[pid].toInsert)
  {
    GoodAt(w, s, pid);
    hide Good, IsTopo, LocatedOk;
  }

  lemma SameCommits(w: World, s: State, s': State, p: Process)
    requires Same(s, s') && AskedNow(w, s, p) && InsertsNow(s, p) && TookNew(s, p)
    ensures AskedNow(w, s', p) && InsertsNow(s', p) && TookNew(s', p)
  {
    hide Index, Relevant, AskedCommits;
  }

  /** What a push has work for and what it wants depend on what it brings and inserts. */
  lemma WantsSame(w: World, p: Process, p': Process)
    requires p'.push == p.push && p'.toInsert == p.toInsert
    ensures Relevant(p') == Relevant(p) <= Wanted(w, p) == Wanted(w, p')
    ensures forall o :: o in p.push.objects ==> BasesOf(p', o) == BasesOf(p, o)
  {
    assert Relevant(p') == Relevant(p);
    hide Relevant;
    forall o | o in p.push.objects ensures BasesOf(p', o) == BasesOf(p, o) { }
    hide BasesOf;
    assert Wanted(w, p') == Wanted(w, p);
  }

  lemma ReadFits(w: World, s: State, s': State, pid: int)
    requires pid in s.processes && Fit(w, s, s.processes[pid]) && ReadObjects(w, s, s', pid)
    ensures Steady(w, s, s', pid)
  {
    hide Index;
    var p, p' := s.processes[pid], s'.processes[pid];
    WantsSame(w, p, p');
    hide Wanted, Relevant;
    forall o | o in Wanted(w, p') && o in s.ids && s.ids[o].kind != Commit ensures o in p'.objOf {
      assert ObjectAnswer(s, p, o) == Some(s.ids[o]);
    }
  }

  /** Before anything but commits is taken, what resolved is in the store. */
  lemma ResolvedIsStored(w: World, s: State, p: Process, o: Oid)
    requires (forall k: Kind :: k in s.next) && ProcessOk(w, s, p) && p.phase == Resolved && p.unlisted.None?
    requires TookNew(s, p) && FoundNow(w, s, p) && o in p.objOf
    ensures o in s.ids && s.ids[o].kind != Commit
  {
    hide Index, IsTopo, Wanted, Relevant, MineAbove, LocatedOk, SeqsOk, MineOk;
    assert Calls(s.ids, p.mine, o, p.objOf[o]);
  }

  lemma LookedIsNow(w: World, s: State, p: Process, p': Process)
    requires (forall k: Kind :: k in s.next) && ProcessOk(w, s, p) && p.phase == Resolved && p.unlisted.None?
    requires TookNew(s, p) && FoundNow(w, s, p)
    requires p' == p.(unlisted := Some(set o | o in Relevant(p) && !(o in p.objOf && o in s.listed)))
    ensures TookNew(s, p') && FoundNow(w, s, p') && LookedNow(s, p')
  {
    WantsSame(w, p, p');
    hide Wanted, Relevant, ProcessOk;
    forall o | o in p.objOf ensures o in s.ids && s.ids[o].kind != Commit {
      ResolvedIsStored(w, s, p, o);
    }
  }

  lemma LookUpFits(w: World, s: State, s': State, pid: int)
    requires Good(w, s) && pid in s.processes && Fit(w, s, s.processes[pid]) && LookUp(s, s', pid)
    ensures Steady(w, s, s', pid)
  {
    GoodAt(w, s, pid);
    hide Good, Index, AskedCommits, Covered, IdsOk, SegmentsOk, ProcessOk, Complete, Relevant;
    var p, p' := s.processes[pid], s'.processes[pid];
    LookedIsNow(w, s, p, p');
    SameTook(w, s, s', p');
    hide TookNew, FoundNow, LookedNow;
  }

  lemma TookMore(w: World, s: State, p: Process, p': Process, kind: Kind, block: map<Oid, Identity>)
    requires TookNew(s, p) && FoundNow(w, s, p) && LookedNow(s, p) && p.unlisted.Some? && kind != Commit
    requires forall o :: o in block ==> block[o].kind == kind && o in Relevant(p) && o !in p.objOf
    requires p' == p.(objOf := p.objOf + block, mine := p.mine + block, left := p'.left)
    ensures TookNew(s, p') && FoundNow(w, s, p') && LookedNow(s, p')
  {
    WantsSame(w, p, p');
    hide Wanted, Relevant;
  }

  lemma NumberTheseFits(w: World, s: State, s': State, pid: int, taking: seq<Oid>)
    requires pid in s.processes && Fit(w, s, s.processes[pid]) && NumberThese(s, s', pid, taking)
    requires NoCommits(s.processes[pid].left)
    ensures Steady(w, s, s', pid)
  {
    hide Index, Relevant, TookNew, FoundNow, LookedNow, AskedCommits;
    var p, p' := s.processes[pid], s'.processes[pid];
    var block := Block(p.left[0], taking, s.next[p.left[0]]);
    assert p.left[0] in p.left;
    forall o | o in block ensures o in Relevant(p) && o !in p.objOf { assert o in AsSet(taking); }
    TookMore(w, s, p, p', p.left[0], block);
    SameTook(w, s, s', p');
  }

  lemma SameTook(w: World, s: State, s': State, p: Process)
    requires Same(s, s') && TookNew(s, p) && FoundNow(w, s, p) && LookedNow(s, p)
    ensures TookNew(s', p) && FoundNow(w, s', p) && LookedNow(s', p)
  {
    hide Wanted, Relevant;
  }

  lemma RankFits(w: World, s: State, s': State, pid: int)
    requires pid in s.processes && Fit(w, s, s.processes[pid]) && Rank(w, s, s', pid)
    ensures Steady(w, s, s', pid)
  {
    hide Index, Buildable, Outside, AskedCommits;
    var p, p' := s.processes[pid], s'.processes[pid];
    WantsSame(w, p, p');
    hide Relevant, Wanted, BasesOf;
    assert Complete(w, p');
    assert TookNew(s, p') && FoundNow(w, s, p') && LookedNow(s, p');
    hide Complete;
    SameTook(w, s, s', p');
  }

  lemma EndFits(w: World, s: State, s': State, pid: int)
    requires pid in s.processes && Fit(w, s, s.processes[pid]) && (Race(s, s', pid) || Stop(s, s', pid))
    ensures Steady(w, s, s', pid)
  {
    hide Index, AskedNow, InsertsNow, TookNew, FoundNow, LookedNow, Complete;
  }

  /** As long as a push is alone and has recorded nothing, it is fit. */
  lemma StepFits(w: World, s: State, s': State, pid: int)
    requires Good(w, s) && pid in s.processes && Fit(w, s, s.processes[pid]) && Step(w, s, s', pid)
    requires !Record(s, s', pid) && !Journal(w, s, s', pid)
    ensures Steady(w, s, s', pid)
  {
    GoodAt(w, s, pid);
    hide Good, Fit, Steady, Learn, Resolve, Locate, Number, ReadObjects, LookUp, NumberThese, Rank, Record, Race;
    hide JournalWith, Stop, IdsOk, SegmentsOk, Covered;
    if Learn(s, s', pid) {
      LearnFits(w, s, s', pid);
    } else if Resolve(w, s, s', pid) {
      ResolveFits(w, s, s', pid);
    } else if Locate(s, s', pid) {
      LocateFits(w, s, s', pid);
    } else if Number(s, s', pid) {
      NumberFits(w, s, s', pid);
    } else if ReadObjects(w, s, s', pid) {
      ReadFits(w, s, s', pid);
    } else if LookUp(s, s', pid) {
      LookUpFits(w, s, s', pid);
    } else if NumberObjects(s, s', pid) {
      var taking :| NumberThese(s, s', pid, taking);
      LeftIsNoCommits(w, s, s', pid, taking);
      NumberTheseFits(w, s, s', pid, taking);
    } else if Rank(w, s, s', pid) {
      RankFits(w, s, s', pid);
    } else {
      EndFits(w, s, s', pid);
    }
  }

  lemma LeftIsNoCommits(w: World, s: State, s': State, pid: int, taking: seq<Oid>)
    requires pid in s.processes && (forall k: Kind :: k in s.next) && ProcessOk(w, s, s.processes[pid])
    requires NumberThese(s, s', pid, taking)
    ensures NoCommits(s.processes[pid].left)
  {
  }

  // ------------------------------------------------------------ supplied is enough

  /** What the push has taken, no one has. */
  lemma TookIsFree(w: World, s: State, p: Process)
    requires (forall k: Kind :: k in s.next) && ProcessOk(w, s, p) && Covered(s.ids, p)
    requires 3 <= Stage(p.phase) <= 5 && Fit(w, s, p) && Supplied(w, s, p.push)
    ensures p.mine.Keys !! s.ids.Keys
  {
    hide Index, IsTopo, Settled;
    forall o | o in p.mine && o in s.ids ensures false {
      assert Brings(p.push, o, p.mine[o].kind);
      if p.mine[o].kind != Commit {
        WorkIsRelevant(s, p, o);
      }
    }
  }

  /** What it would number is what it finds to number. */
  lemma WorkIsRelevant(s: State, p: Process, o: Oid)
    requires InsertsNow(s, p) && LocatedOk(s, p.push.commits, p.toInsert)
    ensures HasWork(s, p.push, o) <==> o in Relevant(p)
  {
    hide Settled;
    if o in Relevant(p) && p.push.objects[o].packs != map[] {
      var c :| c in p.push.objects[o].packs && c in p.toInsert;
      assert c in p.push.commits && !Settled(s, c);
    }
    if HasWork(s, p.push, o) && p.push.objects[o].packs != map[] {
      var c :| c in p.push.objects[o].packs && c in p.push.commits && !Settled(s, c);
      assert c in p.toInsert;
    }
  }

  lemma ParentResolved(w: World, s: State, p: Process, c: Oid, q: Oid)
    requires (forall k: Kind :: k in s.next) && ProcessOk(w, s, p)
    requires p.phase == Resolved && Fit(w, s, p) && Supplied(w, s, p.push)
    requires c in p.toInsert && c in w && q in w[c].parents
    ensures q in p.seqOf && (q in p.toInsert || Settled(s, q))
  {
    hide Index, IsTopo, Has, ObjectSupplied, FoundNow, TookNew, LookedNow;
    assert c in p.push.commits && !Settled(s, c);
    assert CommitSupplied(w, s, p.push, c);
    assert q in AskedCommits(w, p.push);
  }

  /** With all numbered, what the push resolved is what it was supplied with. */
  lemma ResolvedIsHad(w: World, s: State, p: Process, o: Oid, kinds: set<Kind>)
    requires (forall k: Kind :: k in s.next) && ProcessOk(w, s, p) && Covered(s.ids, p) && Fit(w, s, p)
    requires p.phase == Ranked || (p.phase == Resolved && p.left == [])
    requires p.mine.Keys !! s.ids.Keys && o in Wanted(w, p) && Commit !in kinds
    ensures HasKind(p.objOf, o, kinds) <==> Has(s, p.push, o, kinds)
  {
    hide Index, IsTopo, Settled, AskedNow, MineAbove, Wanted, Complete, LookedNow, RanksOk, SeqsOk, MineOk;
    WorkIsRelevant(s, p, o);
    hide HasWork, Relevant, InsertsNow, LocatedOk;
    if o in p.objOf {
      assert Calls(s.ids, p.mine, o, p.objOf[o]);
    }
    if o in p.mine {
      assert Brings(p.push, o, p.mine[o].kind);
    }
  }

  lemma CommitIsBuildable(w: World, s: State, p: Process, c: Oid)
    requires (forall k: Kind :: k in s.next) && ProcessOk(w, s, p) && Covered(s.ids, p)
    requires p.phase == Resolved && p.left == [] && Fit(w, s, p) && Supplied(w, s, p.push)
    requires p.mine.Keys !! s.ids.Keys && c in p.toInsert
    ensures c in w && c in p.seqOf && w[c].root in p.objOf && p.objOf[w[c].root].kind == Tree
    ensures forall q :: q in w[c].parents ==> q in p.seqOf
  {
    hide Index, IsTopo, Settled, AskedNow, Covered, LookedNow;
    assert c in p.push.commits && !Settled(s, c);
    assert CommitSupplied(w, s, p.push, c);
    assert w[c].root in Wanted(w, p);
    ResolvedIsHad(w, s, p, w[c].root, {Tree});
    forall q | q in w[c].parents ensures q in p.seqOf { ParentResolved(w, s, p, c, q); }
  }

  lemma ObjectIsIndexable(w: World, s: State, p: Process, o: Oid)
    requires (forall k: Kind :: k in s.next) && ProcessOk(w, s, p) && Covered(s.ids, p) && Fit(w, s, p)
    requires p.phase == Ranked || (p.phase == Resolved && p.left == [] && p.unlisted.Some?)
    requires p.mine.Keys !! s.ids.Keys && o in Relevant(p) && s.listed <= s.ids.Keys
    requires o in s.ids ==> s.ids[o].kind != Commit
    ensures HasWork(s, p.push, o) && (Indexable(p, o) <==> ObjectSupplied(s, p.push, o))
  {
    hide Index, IsTopo, Settled, AskedNow, MineAbove, RanksOk, SeqsOk, MineOk, ObjectsOk, Covered, FoundNow, TookNew;
    hide HasKind, Has, Complete;
    var brought := p.push.objects[o];
    WorkIsRelevant(s, p, o);
    forall c | c in brought.packs && c in p.push.commits ensures c in p.toInsert <==> !Settled(s, c) { }
    assert o in Wanted(w, p);
    ResolvedIsHad(w, s, p, o, {Tree, Blob});
    forall c | c in brought.packs && c in p.toInsert && brought.packs[c].Some?
      ensures brought.packs[c].value in BasesOf(p, o)
      ensures HasKind(p.objOf, brought.packs[c].value, {brought.kind}) <==>
        Has(s, p.push, brought.packs[c].value, {brought.kind})
    {
      var b := brought.packs[c].value;
      assert b in BasesOf(p, o) && b in Wanted(w, p);
      ResolvedIsHad(w, s, p, b, {brought.kind});
    }
    forall n | n in brought.children
      ensures HasKind(p.objOf, n, {Tree, Blob}) <==> Has(s, p.push, n, {Tree, Blob})
    {
      assert n in Wanted(w, p);
      ResolvedIsHad(w, s, p, n, {Tree, Blob});
    }
  }

  lemma SuppliedIsComplete(w: World, s: State, p: Process)
    requires (forall k: Kind :: k in s.next) && ProcessOk(w, s, p) && Covered(s.ids, p)
    requires p.phase == Resolved && p.left == [] && Fit(w, s, p) && Supplied(w, s, p.push)
    requires p.mine.Keys !! s.ids.Keys && s.listed <= s.ids.Keys
    ensures p.unlisted.Some? && Complete(w, p)
  {
    hide Index, IsTopo, Settled, Covered, Indexable, ObjectSupplied, AskedNow, LookedNow, CommitSupplied;
    forall c | c in p.toInsert
      ensures c in w && c in p.seqOf && w[c].root in p.objOf && p.objOf[w[c].root].kind == Tree
      ensures forall q :: q in w[c].parents ==> q in p.seqOf
    {
      CommitIsBuildable(w, s, p, c);
    }
    forall o | o in Relevant(p) ensures Indexable(p, o) {
      WorkIsRelevant(s, p, o);
      NoCommitIsSupplied(s, p.push, o);
      ObjectIsIndexable(w, s, p, o);
    }
  }

  lemma NoCommitIsSupplied(s: State, push: Push, o: Oid)
    requires ObjectSupplied(s, push, o)
    ensures o in s.ids ==> s.ids[o].kind != Commit
  {
    hide Has, Settled;
  }

  lemma SuppliedRanks(w: World, s: State, pid: int)
    requires Good(w, s) && pid in s.processes
    requires var p := s.processes[pid]; p.phase == Resolved && p.left == [] && Fit(w, s, p) && Supplied(w, s, p.push)
    ensures var p := s.processes[pid];
      p.unlisted.Some? && Complete(w, p) && Outside(w, p.toInsert, p.seqOf) <= Index(s.segments).Keys
  {
    GoodAt(w, s, pid);
    hide Good, Index;
    var p := s.processes[pid];
    TookIsFree(w, s, p);
    SuppliedIsComplete(w, s, p);
    hide Complete;
    forall n | n in Outside(w, p.toInsert, p.seqOf) ensures n in Index(s.segments) {
      var c, q :| c in p.toInsert && c in w && q in w[c].parents && q in p.seqOf && p.seqOf[q] == n
        && n !in OwnSeqs(p.toInsert, p.seqOf);
      OutsideIsListed(w, s, p, c, q);
    }
  }

  lemma OutsideIsListed(w: World, s: State, p: Process, c: Oid, q: Oid)
    requires (forall k: Kind :: k in s.next) && ProcessOk(w, s, p) && p.mine.Keys !! s.ids.Keys
    requires p.phase == Resolved && Fit(w, s, p) && Supplied(w, s, p.push)
    requires c in p.toInsert && c in w && q in w[c].parents && q in p.seqOf
    requires p.seqOf[q] !in OwnSeqs(p.toInsert, p.seqOf)
    ensures p.seqOf[q] in Index(s.segments)
  {
    ParentResolved(w, s, p, c, q);
    hide Supplied, Fit, Index, IsTopo;
    assert Calls(s.ids, p.mine, q, Identity(Commit, p.seqOf[q]));
  }

  // ------------------------------------------------------------------ what can move

  /** Every way forward: not starting, nor reading more, nor stopping. */
  ghost predicate Advances(w: World, s: State, s': State, pid: int)
  {
    || Resolve(w, s, s', pid) || Locate(s, s', pid) || Number(s, s', pid)
    || ReadObjects(w, s, s', pid) || LookUp(s, s', pid) || NumberObjects(s, s', pid) || Rank(w, s, s', pid)
    || Record(s, s', pid) || Race(s, s', pid) || Journal(w, s, s', pid)
  }

  /** Which of a push's own commits has the seq. */
  ghost function Owner(p: Process, n: nat): (c: Oid)
    requires n in OwnSeqs(p.toInsert, p.seqOf)
    ensures c in p.toInsert && c in p.seqOf && p.seqOf[c] == n
  {
    var c :| c in p.toInsert && c in p.seqOf && p.seqOf[c] == n;
    c
  }

  /** The row a commit is to have: its parents' seqs, its root's and its generation. */
  ghost function RowOf(w: World, ids: map<Oid, Identity>, p: Process, c: Oid): Row
    requires Parented(w, ids) && Buildable(w, p.toInsert, p.seqOf, p.objOf)
    requires c in p.toInsert && c in ids && ids[c].kind == Commit
  {
    Row(seq(|w[c].parents|, i requires 0 <= i < |w[c].parents| =>
          assert w[c].parents[i] in w[c].parents; p.seqOf[w[c].parents[i]]),
        p.objOf[w[c].root].num, Gen(w, ids, c))
  }

  /** What a push that has recorded its numbers has to go on. */
  ghost predicate Landed(w: World, s: State, p: Process)
  {
    && IdsOk(w, s) && SegmentsOk(w, s.ids, s.segments)
    && SeqsOk(s.ids, map[], p.seqOf)
    && RanksOk(w, s.segments, p.toInsert, p.seqOf, p.objOf, p.ranks)
  }

  lemma LandedSeq(w: World, s: State, p: Process, c: Oid)
    requires Landed(w, s, p) && c in p.seqOf
    ensures c in s.ids && s.ids[c] == Identity(Commit, p.seqOf[c])
  {
    hide SegmentsOk, RanksOk, IdsOk;
    assert Calls(s.ids, map[], c, Identity(Commit, p.seqOf[c]));
  }

  lemma OwnerIs(w: World, s: State, p: Process, c: Oid)
    requires Landed(w, s, p) && c in p.seqOf && p.seqOf[c] in OwnSeqs(p.toInsert, p.seqOf)
    ensures Owner(p, p.seqOf[c]) == c
  {
    LandedSeq(w, s, p, c);
    LandedSeq(w, s, p, Owner(p, p.seqOf[c]));
    hide SegmentsOk, RanksOk, SeqsOk, Parented;
  }

  /** The segment a push is to list. */
  lemma Segmented(w: World, s: State, p: Process) returns (segment: Segment)
    requires Landed(w, s, p)
    ensures segment.Keys == OwnSeqs(p.toInsert, p.seqOf)
    ensures forall c :: c in p.toInsert ==>
      && c in p.seqOf && p.seqOf[c] in segment && c in s.ids && s.ids[c].kind == Commit
      && segment[p.seqOf[c]] == RowOf(w, s.ids, p, c)
  {
    var own := OwnSeqs(p.toInsert, p.seqOf);
    forall n | n in own ensures Owner(p, n) in s.ids && s.ids[Owner(p, n)].kind == Commit {
      LandedSeq(w, s, p, Owner(p, n));
    }
    segment := map n | n in own :: RowOf(w, s.ids, p, Owner(p, n));
    forall c | c in p.toInsert
      ensures c in p.seqOf && p.seqOf[c] in segment && c in s.ids && s.ids[c].kind == Commit
      ensures segment[p.seqOf[c]] == RowOf(w, s.ids, p, c)
    {
      LandedSeq(w, s, p, c);
      OwnerIs(w, s, p, c);
    }
  }

  lemma RankIsGen(w: World, s: State, p: Process, segment: Segment, c: Oid, q: Oid)
    requires Landed(w, s, p) && c in p.toInsert && q in w[c].parents && q in p.seqOf
    requires segment.Keys == OwnSeqs(p.toInsert, p.seqOf)
    requires forall d :: d in p.toInsert ==>
      && d in p.seqOf && p.seqOf[d] in segment && d in s.ids && s.ids[d].kind == Commit
      && segment[p.seqOf[d]] == RowOf(w, s.ids, p, d)
    ensures q in s.ids && s.ids[q].kind == Commit
    ensures ParentRank(segment, p.ranks, p.seqOf[q]) == Gen(w, s.ids, q)
  {
    hide Index, Gen;
    LandedSeq(w, s, p, q);
    var n := p.seqOf[q];
    if n in segment {
      OwnerIs(w, s, p, q);
      assert Owner(p, n) in p.toInsert;
    } else {
      assert n in Outside(w, p.toInsert, p.seqOf);
      IndexedGen(w, s, q, n);
    }
  }

  /** A push whose numbers have landed can always build its segment. */
  lemma CanBuild(w: World, s: State, p: Process) returns (segment: Segment)
    requires Landed(w, s, p)
    ensures IsBuilt(w, p, segment)
  {
    segment := Segmented(w, s, p);
    forall c | c in p.toInsert ensures IsRow(w, p, segment, c, segment[p.seqOf[c]]) {
      BuildRow(w, s, p, segment, c);
    }
  }

  lemma BuildRow(w: World, s: State, p: Process, segment: Segment, c: Oid)
    requires Landed(w, s, p) && c in p.toInsert
    requires segment.Keys == OwnSeqs(p.toInsert, p.seqOf)
    requires forall d :: d in p.toInsert ==>
      && d in p.seqOf && p.seqOf[d] in segment && d in s.ids && s.ids[d].kind == Commit
      && segment[p.seqOf[d]] == RowOf(w, s.ids, p, d)
    ensures IsRow(w, p, segment, c, segment[p.seqOf[c]])
  {
    var row, ps := segment[p.seqOf[c]], w[c].parents;
    var ranks := seq(|row.parents|, i requires 0 <= i < |row.parents| => ParentRank(segment, p.ranks, row.parents[i]));
    forall i | 0 <= i < |ps| ensures ranks[i] == ParentGens(w, s.ids, c)[i] {
      assert ps[i] in ps;
      RankIsGen(w, s, p, segment, c, ps[i]);
    }
    assert ranks == ParentGens(w, s.ids, c);
  }

  lemma CanResolve(w: World, s: State, pid: int, order: seq<Oid>) returns (s': State)
    requires pid in s.processes && s.processes[pid].phase == Reading
    requires IsTopo(BatchOf(w, s.processes[pid].push), order)
    ensures Resolve(w, s, s', pid)
    ensures pid in s'.processes
    ensures s'.processes[pid].phase == Planned && s'.processes[pid].push == s.processes[pid].push
  {
    hide IsTopo, BatchOf;
    var p := s.processes[pid];
    s' := s.(processes := s.processes[
      pid := p.(phase := Planned, order := order, seqOf := ResolvedCommits(w, s, p))]);
  }

  lemma CanLocate(s: State, pid: int) returns (s': State)
    requires pid in s.processes && s.processes[pid].phase == Planned
    ensures Locate(s, s', pid)
    ensures pid in s'.processes
    ensures s'.processes[pid].phase == Located && s'.processes[pid].push == s.processes[pid].push
  {
    hide Index;
    var p := s.processes[pid];
    var missing := set c | c in p.order && !HasEntry(s, p.seqOf, c);
    s' := s.(processes := s.processes[pid := p.(phase := Located, toInsert := Filter(p.order, missing))]);
  }

  lemma CanNumber(s: State, pid: int) returns (s': State)
    requires pid in s.processes && s.processes[pid].phase == Located && Commit in s.next
    ensures Number(s, s', pid)
    ensures pid in s'.processes
    ensures s'.processes[pid].phase == Numbered && s'.processes[pid].push == s.processes[pid].push
  {
    hide Taking, Block, Nums;
    var p := s.processes[pid];
    var taking := Taking(p.toInsert, p.seqOf);
    var block := Block(Commit, taking, s.next[Commit]);
    s' := s.(processes := s.processes[pid := p.(phase := Numbered, seqOf := p.seqOf + Nums(block), mine := block)],
             next := s.next[Commit := s.next[Commit] + |taking|]);
  }

  lemma CanRead(w: World, s: State, pid: int) returns (s': State)
    requires pid in s.processes && s.processes[pid].phase == Numbered
    ensures ReadObjects(w, s, s', pid)
    ensures pid in s'.processes
    ensures s'.processes[pid].phase == Resolved && s'.processes[pid].push == s.processes[pid].push
    ensures s'.processes[pid].left == [Tree, Blob, Tag] && s'.processes[pid].unlisted == None
  {
    var p := s.processes[pid];
    s' := s.(processes := s.processes[
      pid := p.(phase := Resolved, objOf := ResolvedObjects(w, s, p), unlisted := None, left := [Tree, Blob, Tag])]);
  }

  lemma CanLookUp(s: State, pid: int) returns (s': State)
    requires pid in s.processes && s.processes[pid].phase == Resolved && s.processes[pid].unlisted.None?
    ensures LookUp(s, s', pid)
    ensures pid in s'.processes
    ensures s'.processes[pid].phase == Resolved && s'.processes[pid].push == s.processes[pid].push
    ensures s'.processes[pid].left == s.processes[pid].left && s'.processes[pid].unlisted.Some?
  {
    var p := s.processes[pid];
    var unlisted := set o | o in Relevant(p) && !(o in p.objOf && o in s.listed);
    s' := s.(processes := s.processes[pid := p.(unlisted := Some(unlisted))]);
  }

  lemma CanNumberObjects(s: State, pid: int) returns (s': State)
    requires pid in s.processes && s.processes[pid].phase == Resolved && s.processes[pid].left != []
    requires s.processes[pid].unlisted.Some? && forall k: Kind :: k in s.next
    ensures NumberObjects(s, s', pid)
    ensures pid in s'.processes
    ensures s'.processes[pid].phase == Resolved && s'.processes[pid].push == s.processes[pid].push
    ensures s'.processes[pid].left == s.processes[pid].left[1..] && s'.processes[pid].unlisted.Some?
  {
    hide Unnumbered, Block, Sorted, AsSet;
    var p := s.processes[pid];
    var kind := p.left[0];
    var taking := Sorted(Unnumbered(p, kind));
    var block := Block(kind, taking, s.next[kind]);
    s' := s.(processes := s.processes[pid :=
               p.(objOf := p.objOf + block, mine := p.mine + block, left := p.left[1..])],
             next := s.next[kind := s.next[kind] + |taking|]);
    assert NumberThese(s, s', pid, taking);
  }

  lemma CanRank(w: World, s: State, pid: int) returns (s': State)
    requires pid in s.processes && s.processes[pid].phase == Resolved && s.processes[pid].left == []
    requires var p := s.processes[pid];
      p.unlisted.Some? && Complete(w, p) && Outside(w, p.toInsert, p.seqOf) <= Index(s.segments).Keys
    ensures Rank(w, s, s', pid)
    ensures pid in s'.processes
    ensures s'.processes[pid].phase == Ranked && s'.processes[pid].push == s.processes[pid].push
  {
    hide Index, Complete;
    var p := s.processes[pid];
    var ranks := map n | n in Outside(w, p.toInsert, p.seqOf) :: Index(s.segments)[n].generation;
    s' := s.(processes := s.processes[pid := p.(phase := Ranked, ranks := ranks)]);
  }

  lemma CanRecord(s: State, pid: int) returns (s': State)
    requires pid in s.processes && s.processes[pid].phase == Ranked
    ensures s.processes[pid].mine.Keys !! s.ids.Keys ==>
      && Record(s, s', pid) && pid in s'.processes
      && s'.processes[pid].phase == Recorded && s'.processes[pid].push == s.processes[pid].push
    ensures !(s.processes[pid].mine.Keys !! s.ids.Keys) ==> Race(s, s', pid)
  {
    var p := s.processes[pid];
    if p.mine.Keys !! s.ids.Keys {
      s' := s.(processes := s.processes[pid := p.(phase := Recorded, mine := map[])], ids := s.ids + p.mine);
    } else {
      var p' := if p.attempt + 1 < MAX_APPEND_ATTEMPTS then Fresh(p.push, p.attempt + 1)
                else p.(phase := Stopped, mine := map[]);
      s' := s.(processes := s.processes[pid := p']);
    }
  }

  /** Once a push has recorded its numbers, nothing anyone does keeps it from listing them. */
  lemma CanJournal(w: World, s: State, pid: int) returns (s': State)
    requires Good(w, s) && pid in s.processes && s.processes[pid].phase == Recorded
    ensures Journal(w, s, s', pid)
    ensures pid in s'.processes
    ensures s'.processes[pid].phase == Done && s'.processes[pid].push == s.processes[pid].push
  {
    GoodAt(w, s, pid);
    hide Good, Index, IsBuilt, Covered;
    var p := s.processes[pid];
    var segment := CanBuild(w, s, p);
    s' := s.(processes := s.processes[pid := p.(phase := Done)],
             segments := if p.toInsert == [] then s.segments else s.segments + [segment],
             listed := s.listed + Relevant(p));
    assert JournalWith(w, s, s', pid, segment);
  }

  lemma LookedBeforeLast(w: World, s: State, p: Process)
    requires (forall k: Kind :: k in s.next) && ProcessOk(w, s, p)
    ensures p.phase == Resolved && p.left == [] ==> p.unlisted.Some?
  {
    hide IsTopo, Index;
  }

  lemma ReadingOnlyResolves(w: World, s: State, pid: int)
    requires pid in s.processes && s.processes[pid].phase == Reading
    ensures forall s' :: Advances(w, s, s', pid) ==> exists order :: IsTopo(BatchOf(w, s.processes[pid].push), order)
  {
    hide IsTopo, BatchOf, Index;
  }

  lemma ResolvedOnlyRanks(w: World, s: State, pid: int)
    requires pid in s.processes && s.processes[pid].phase == Resolved && s.processes[pid].left == []
    requires s.processes[pid].unlisted.Some?
    ensures forall s' :: Advances(w, s, s', pid) ==>
      var p := s.processes[pid];
      Complete(w, p) && Outside(w, p.toInsert, p.seqOf) <= Index(s.segments).Keys
  {
    hide IsTopo, Complete, Outside, Index;
  }

  /** In every state of every run, a push in flight can move on, with two exceptions
      and no others: its commits make a cycle, or it has numbered all it brings and
      something its commits or objects name is still missing or of the wrong kind. */
  lemma AdvancesIff(w: World, run: seq<State>, i: nat, pid: int)
    requires IsRun(w, run) && i < |run| && pid in run[i].processes
    requires run[i].processes[pid].phase != Done && run[i].processes[pid].phase != Stopped
    ensures (exists s' :: Advances(w, run[i], s', pid)) <==>
      var s, p := run[i], run[i].processes[pid];
      && (p.phase == Reading ==> exists order :: IsTopo(BatchOf(w, p.push), order))
      && (p.phase == Resolved && p.left == [] ==>
            && Complete(w, p)
            && Outside(w, p.toInsert, p.seqOf) <= Index(s.segments).Keys)
  {
    RunIsSafe(w, run, i);
    RunIsCovered(w, run, i);
    RunIsListed(w, run, i, i);
    var s, p := run[i], run[i].processes[pid];
    GoodAt(w, s, pid);
    LookedBeforeLast(w, s, p);
    hide IsRun, Inv, AllCovered, Named, Listed, Covered, IdsOk, SegmentsOk, ProcessOk, IsTopo, BatchOf, Index;
    hide Complete, Outside, Resolve, Locate, Number, ReadObjects, LookUp, NumberObjects, Rank, Record, Race, Journal;
    match p.phase
    case Reading =>
      ReadingOnlyResolves(w, s, pid);
      if order :| IsTopo(BatchOf(w, p.push), order) {
        var s' := CanResolve(w, s, pid, order);
        assert Advances(w, s, s', pid);
      }
    case Planned =>
      var s' := CanLocate(s, pid);
      assert Advances(w, s, s', pid);
    case Located =>
      var s' := CanNumber(s, pid);
      assert Advances(w, s, s', pid);
    case Numbered =>
      var s' := CanRead(w, s, pid);
      assert Advances(w, s, s', pid);
    case Resolved =>
      if p.unlisted.None? {
        var s' := CanLookUp(s, pid);
        assert Advances(w, s, s', pid);
      } else if p.left != [] {
        var s' := CanNumberObjects(s, pid);
        assert Advances(w, s, s', pid);
      } else {
        ResolvedOnlyRanks(w, s, pid);
        if Complete(w, p) && Outside(w, p.toInsert, p.seqOf) <= Index(s.segments).Keys {
          var s' := CanRank(w, s, pid);
          assert Advances(w, s, s', pid);
        }
      }
    case Ranked =>
      var s' := CanRecord(s, pid);
      assert Advances(w, s, s', pid);
    case Recorded =>
      var s' := CanJournal(w, s, pid);
      assert Advances(w, s, s', pid);
  }

  // ------------------------------------------------------------------ a push alone

  /** The store is as it was, and the push, unrecorded, knows it. */
  ghost predicate Quiet(w: World, s0: State, s: State, pid: int)
  {
    Good(w, s) && Steady(w, s0, s, pid)
  }

  lemma SuppliedSame(w: World, s0: State, s: State, push: Push)
    requires Same(s0, s)
    ensures Supplied(w, s0, push) <==> Supplied(w, s, push)
  {
    hide IsTopo, Index;
    forall c ensures Settled(s0, c) <==> Settled(s, c) { }
    forall o ensures HasWork(s0, push, o) <==> HasWork(s, push, o) { WorkSame(s0, s, push, o); }
    hide Settled, HasWork;
    forall o, kinds ensures Has(s0, push, o, kinds) <==> Has(s, push, o, kinds) { }
    hide Has;
    forall c ensures CommitSupplied(w, s0, push, c) <==> CommitSupplied(w, s, push, c) { }
    forall o | o in push.objects ensures ObjectSupplied(s0, push, o) <==> ObjectSupplied(s, push, o) { }
    hide CommitSupplied, ObjectSupplied;
  }

  lemma WorkSame(s0: State, s: State, push: Push, o: Oid)
    requires Same(s0, s)
    ensures HasWork(s0, push, o) <==> HasWork(s, push, o)
  {
    hide Index;
    assert forall c :: Settled(s0, c) <==> Settled(s, c);
  }

  lemma Onward(w: World, pid: int, run: seq<State>, s': State) returns (more: seq<State>)
    requires Alone(w, pid, run) && Quiet(w, run[0], run[|run| - 1], pid)
    requires Step(w, run[|run| - 1], s', pid)
    requires !Record(run[|run| - 1], s', pid) && !Journal(w, run[|run| - 1], s', pid)
    ensures more == run + [s'] && Alone(w, pid, more) && Quiet(w, run[0], s', pid)
  {
    hide Step, Good, Fit, Record, Journal;
    var s := run[|run| - 1];
    more := run + [s'];
    StepFits(w, s, s', pid);
    StepIsGood(w, s, s', pid);
    forall i | 0 <= i < |more| - 1 ensures Step(w, more[i], more[i + 1], pid) {
      if i < |run| - 1 {
        assert Step(w, run[i], run[i + 1], pid);
      }
    }
  }

  lemma NotYet(w: World, s: State, s': State, pid: int)
    requires pid in s.processes && s.processes[pid].phase != Ranked && s.processes[pid].phase != Recorded
    ensures !Record(s, s', pid) && !Journal(w, s, s', pid)
  {
    hide IsBuilt;
  }

  /** Up to the point where it has read all it will and numbered nothing but commits. */
  lemma GetsResolved(w: World, s: State, pid: int) returns (run: seq<State>)
    requires Good(w, s) && pid in s.processes && s.processes[pid].phase == Reading
    requires Current(s.ids, s.processes[pid].known) && Supplied(w, s, s.processes[pid].push)
    ensures |run| == 6 && run[0] == s && Alone(w, pid, run) && Quiet(w, s, run[5], pid)
    ensures var p := run[5].processes[pid]; p.phase == Resolved && p.left == [Tree, Blob, Tag] && p.unlisted.Some?
  {
    hide Resolve, Locate, Number, ReadObjects, LookUp, Record, Journal, IsTopo;
    hide Good, Supplied, Same, Fit;
    var order := SomeOrder(w, s, s.processes[pid].push);
    run := StartsFit(w, s, pid);
    var s1 := CanResolve(w, s, pid, order);
    NotYet(w, s, s1, pid);
    run := Onward(w, pid, run, s1);
    var s2 := CanLocate(s1, pid);
    NotYet(w, s1, s2, pid);
    run := Onward(w, pid, run, s2);
    GoodTotal(w, s2);
    var s3 := CanNumber(s2, pid);
    NotYet(w, s2, s3, pid);
    run := Onward(w, pid, run, s3);
    var s4 := CanRead(w, s3, pid);
    NotYet(w, s3, s4, pid);
    run := Onward(w, pid, run, s4);
    var s5 := CanLookUp(s4, pid);
    NotYet(w, s4, s5, pid);
    run := Onward(w, pid, run, s5);
  }

  lemma GoodTotal(w: World, s: State)
    requires Good(w, s)
    ensures forall k: Kind :: k in s.next
  {
    InvTotal(w, s);
  }

  lemma SomeOrder(w: World, s: State, push: Push) returns (order: seq<Oid>)
    requires Supplied(w, s, push)
    ensures IsTopo(BatchOf(w, push), order)
  {
    hide IsTopo, BatchOf, CommitSupplied;
    order :| IsTopo(BatchOf(w, push), order);
  }

  lemma StartsFit(w: World, s: State, pid: int) returns (run: seq<State>)
    requires Good(w, s) && pid in s.processes && s.processes[pid].phase == Reading
    requires Current(s.ids, s.processes[pid].known)
    ensures run == [s] && Alone(w, pid, run) && Quiet(w, s, s, pid)
  {
    hide Good, Step;
    run := [s];
  }

  /** Each kind in turn, then the ranks. */
  lemma GetsRanked(w: World, pid: int, start: seq<State>) returns (run: seq<State>)
    requires |start| == 6 && Alone(w, pid, start) && Quiet(w, start[0], start[5], pid)
    requires var p := start[5].processes[pid]; p.phase == Resolved && p.left == [Tree, Blob, Tag] && p.unlisted.Some?
    requires Supplied(w, start[0], start[0].processes[pid].push)
    ensures |run| == 10 && run[0] == start[0] && Alone(w, pid, run) && Quiet(w, run[0], run[9], pid)
    ensures run[9].processes[pid].phase == Ranked
  {
    hide NumberThese, Rank, Record, Journal, IsTopo, Complete, Outside, Index;
    hide Good, Supplied, Same, Fit;
    var s5 := start[5];
    GoodTotal(w, s5);
    var s6 := CanNumberObjects(s5, pid);
    NotYet(w, s5, s6, pid);
    run := Onward(w, pid, start, s6);
    GoodTotal(w, s6);
    var s7 := CanNumberObjects(s6, pid);
    NotYet(w, s6, s7, pid);
    run := Onward(w, pid, run, s7);
    GoodTotal(w, s7);
    var s8 := CanNumberObjects(s7, pid);
    NotYet(w, s7, s8, pid);
    run := Onward(w, pid, run, s8);
    SuppliedSame(w, run[0], s8, run[0].processes[pid].push);
    SuppliedRanks(w, s8, pid);
    var s9 := CanRank(w, s8, pid);
    NotYet(w, s8, s9, pid);
    run := Onward(w, pid, run, s9);
  }

  /** A push that has read only what is current and is supplied finishes, left to
      itself, in eleven steps. */
  lemma EnoughToFinish(w: World, s: State, pid: int) returns (run: seq<State>)
    requires Good(w, s) && pid in s.processes && s.processes[pid].phase == Reading
    requires Current(s.ids, s.processes[pid].known) && Supplied(w, s, s.processes[pid].push)
    ensures |run| == 12 && run[0] == s && Alone(w, pid, run)
    ensures pid in run[11].processes && run[11].processes[pid].phase == Done
  {
    hide Step, Record, Journal, Supplied, Fit, Good;
    var start := GetsResolved(w, s, pid);
    run := GetsRanked(w, pid, start);
    run := Closes(w, pid, run);
  }

  lemma Closes(w: World, pid: int, start: seq<State>) returns (run: seq<State>)
    requires |start| == 10 && Alone(w, pid, start) && Quiet(w, start[0], start[9], pid)
    requires start[9].processes[pid].phase == Ranked && Supplied(w, start[0], start[0].processes[pid].push)
    ensures |run| == 12 && run[0] == start[0] && Alone(w, pid, run)
    ensures pid in run[11].processes && run[11].processes[pid].phase == Done
  {
    var s9 := start[9];
    GoodAt(w, s9, pid);
    SuppliedSame(w, start[0], s9, start[0].processes[pid].push);
    TookIsFree(w, s9, s9.processes[pid]);
    hide Record, Race, Journal, Good, Supplied, Fit, ProcessOk, IdsOk, SegmentsOk, Covered;
    var s10 := CanRecord(s9, pid);
    StepIsGood(w, s9, s10, pid);
    var s11 := CanJournal(w, s10, pid);
    run := start + [s10, s11];
    forall i | 0 <= i < |run| - 1 ensures Step(w, run[i], run[i + 1], pid) {
      if i < 9 {
        assert Step(w, start[i], start[i + 1], pid);
      }
    }
  }

  // ------------------------------------------------------------ and it is needed

  /** No two oids are called the same by the store and the push between them. */
  lemma CalledOnce(w: World, s: State, p: Process, a: Oid, b: Oid, id: Identity)
    requires IdsOk(w, s) && MineOk(s, p.mine)
    requires Calls(s.ids, p.mine, a, id) && Calls(s.ids, p.mine, b, id)
    ensures a == b
  {
    hide Parented;
  }

  lemma RankedParent(w: World, s: State, p: Process, c: Oid, q: Oid)
    requires IdsOk(w, s) && ProcessOk(w, s, p) && p.phase == Ranked
    requires c in p.toInsert && c in w && q in w[c].parents
    ensures q in p.push.commits || Settled(s, q)
  {
    hide Index, IsTopo, Parented;
    assert q in p.seqOf;
    var n := p.seqOf[q];
    assert Calls(s.ids, p.mine, q, Identity(Commit, n));
    if n in OwnSeqs(p.toInsert, p.seqOf) {
      var d := Owner(p, n);
      assert Calls(s.ids, p.mine, d, Identity(Commit, n));
      CalledOnce(w, s, p, q, d, Identity(Commit, n));
    } else {
      assert n in Outside(w, p.toInsert, p.seqOf);
    }
  }

  lemma RankedCommit(w: World, s: State, p: Process, c: Oid)
    requires IdsOk(w, s) && ProcessOk(w, s, p) && Covered(s.ids, p) && p.phase == Ranked && Fit(w, s, p)
    requires p.mine.Keys !! s.ids.Keys && c in p.toInsert
    ensures CommitSupplied(w, s, p.push, c)
  {
    hide Index, IsTopo, Parented, Settled, Outside, LookedNow, Indexable, Has;
    assert HasKind(p.objOf, w[c].root, {Tree}) && w[c].root in Wanted(w, p);
    ResolvedIsHad(w, s, p, w[c].root, {Tree});
    forall q | q in w[c].parents ensures q in p.push.commits || Settled(s, q) { RankedParent(w, s, p, c, q); }
  }

  lemma RankedObject(w: World, s: State, p: Process, o: Oid)
    requires IdsOk(w, s) && ProcessOk(w, s, p) && Covered(s.ids, p) && p.phase == Ranked && Fit(w, s, p)
    requires p.mine.Keys !! s.ids.Keys && s.listed <= s.ids.Keys && HasWork(s, p.push, o)
    ensures ObjectSupplied(s, p.push, o)
  {
    hide Index, IsTopo, Parented, Settled, Outside, LookedNow, Indexable, ObjectSupplied;
    WorkIsRelevant(s, p, o);
    assert Calls(s.ids, p.mine, o, p.objOf[o]);
    ObjectIsIndexable(w, s, p, o);
  }

  /** A push that may record was supplied. */
  lemma RecordNeeds(w: World, s: State, p: Process)
    requires IdsOk(w, s) && ProcessOk(w, s, p) && Covered(s.ids, p) && p.phase == Ranked && Fit(w, s, p)
    requires p.mine.Keys !! s.ids.Keys && s.listed <= s.ids.Keys
    ensures Supplied(w, s, p.push)
  {
    hide Index, IsTopo, Parented, CommitSupplied, ObjectSupplied, HasWork, Complete, FoundNow, LookedNow;
    forall c | c in p.push.commits && !Settled(s, c) ensures CommitSupplied(w, s, p.push, c) {
      RankedCommit(w, s, p, c);
    }
    forall c | c in p.push.commits && c in s.ids ensures s.ids[c].kind == Commit {
      if c in p.toInsert {
        assert Calls(s.ids, p.mine, c, Identity(Commit, p.seqOf[c]));
      }
    }
    forall o | HasWork(s, p.push, o) ensures ObjectSupplied(s, p.push, o) {
      RankedObject(w, s, p, o);
    }
  }

  /** Left to itself, a push either has recorded nothing or was supplied. */
  lemma {:induction false} AloneNeeds(w: World, pid: int, run: seq<State>, k: nat)
    requires Alone(w, pid, run) && k < |run| && Quiet(w, run[0], run[0], pid)
    ensures Quiet(w, run[0], run[k], pid) || Supplied(w, run[0], run[0].processes[pid].push)
  {
    hide Step, Good, Fit, Supplied;
    if k > 0 {
      AloneNeeds(w, pid, run, k - 1);
      assert Step(w, run[k - 1], run[k - 1 + 1], pid);
      if Quiet(w, run[0], run[k - 1], pid) {
        StepNeeds(w, pid, run[0], run[k - 1], run[k]);
      }
    }
  }

  lemma StepNeeds(w: World, pid: int, s0: State, s: State, s': State)
    requires Quiet(w, s0, s, pid) && Step(w, s, s', pid)
    ensures Quiet(w, s0, s', pid) || Supplied(w, s0, s0.processes[pid].push)
  {
    var p := s.processes[pid];
    NotJournal(w, s, s', pid);
    if Record(s, s', pid) {
      GoodAt(w, s, pid);
      RecordNeeds(w, s, p);
      SuppliedSame(w, s0, s, p.push);
    } else {
      hide Good, Fit, Step, Record, Supplied, Journal;
      StepFits(w, s, s', pid);
      StepIsGood(w, s, s', pid);
    }
  }

  lemma NotJournal(w: World, s: State, s': State, pid: int)
    requires pid in s.processes && Fit(w, s, s.processes[pid])
    ensures !Journal(w, s, s', pid)
  {
    hide IsBuilt, Index, AskedNow, InsertsNow, TookNew, FoundNow, LookedNow, Complete;
  }

  ghost predicate Finishes(w: World, s: State, pid: int, alone: seq<State>)
  {
    && Alone(w, pid, alone) && alone[0] == s
    && var last := alone[|alone| - 1]; pid in last.processes && last.processes[pid].phase == Done
  }

  /** In every state of every run: a push about to start, having read nothing that has
      changed since, can finish with no one else moving if and only if it is supplied.
      Whatever else other pushes left half done is no obstacle. */
  lemma FinishesAloneIff(w: World, run: seq<State>, i: nat, pid: int)
    requires IsRun(w, run) && i < |run| && pid in run[i].processes
    requires run[i].processes[pid].phase == Reading && Current(run[i].ids, run[i].processes[pid].known)
    ensures (exists alone :: Finishes(w, run[i], pid, alone)) <==> Supplied(w, run[i], run[i].processes[pid].push)
  {
    RunIsSafe(w, run, i);
    RunIsCovered(w, run, i);
    RunIsListed(w, run, i, i);
    var s := run[i];
    var _ := StartsFit(w, s, pid);
    hide IsRun, Inv, AllCovered, Named, Listed, Supplied, Step, Fit;
    if Supplied(w, s, s.processes[pid].push) {
      var alone := EnoughToFinish(w, s, pid);
      assert Finishes(w, s, pid, alone);
    }
    if alone :| Finishes(w, s, pid, alone) {
      AloneNeeds(w, pid, alone, |alone| - 1);
      QuietIsUndone(w, s, alone[|alone| - 1], pid);
    }
  }

  lemma QuietIsUndone(w: World, s0: State, s: State, pid: int)
    ensures Quiet(w, s0, s, pid) ==> s.processes[pid].phase != Done
  {
    hide Good, AskedNow, InsertsNow, TookNew, FoundNow, LookedNow, Complete;
  }
}
