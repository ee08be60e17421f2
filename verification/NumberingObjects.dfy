/** What a push leaves of its other objects: once it is recorded, every one it had
    work for is numbered, for good.
*/
module NumberingObjects {
  import opened Graphs
  import opened Bands
  import opened Objects
  import opened TopoOrder
  import opened Numbering
  import opened NumberingSafety

  /** A push brings `o` as an object of that kind. */
  ghost predicate Brings(push: Push, o: Oid, kind: Kind)
  {
    if kind == Commit then o in push.commits else o in push.objects && push.objects[o].kind == kind
  }

  /** Everything taken and not yet recorded is taken as what the push brings it as;
      and every object with work is numbered by kind, then all, then in the store. */
  ghost predicate Covered(ids: map<Oid, Identity>, p: Process)
  {
    var stage := Stage(p.phase);
    && (forall o :: o in p.mine ==> Brings(p.push, o, p.mine[o].kind))
    && (stage == 4 ==> forall o :: o in Relevant(p) ==> p.push.objects[o].kind in p.left || o in p.objOf)
    && (stage == 5 ==> forall o :: o in Relevant(p) ==> o in p.objOf)
    && (6 <= stage <= 7 ==> forall o :: o in Relevant(p) ==> o in ids)
  }

  /** Every identity is one some push asked for. */
  ghost predicate Named(s: State)
  {
    forall o :: o in s.ids ==> SomeBrings(s.processes, o, s.ids[o].kind)
  }

  ghost predicate SomeBrings(processes: map<int, Process>, o: Oid, kind: Kind)
  {
    exists q :: q in processes && Brings(processes[q].push, o, kind)
  }

  ghost predicate AllCovered(s: State)
  {
    forall pid :: pid in s.processes ==> Covered(s.ids, s.processes[pid])
  }

  /** One process moves, keeping its push, and records at most what it brings. */
  lemma MoveCovers(s: State, s': State, pid: int, p: Process)
    requires AllCovered(s) && Named(s) && s'.processes == s.processes[pid := p]
    requires pid in s.processes ==> p.push == s.processes[pid].push
    requires forall o :: o in s.ids ==> o in s'.ids && s'.ids[o] == s.ids[o]
    requires forall o :: o in s'.ids && o !in s.ids ==> Brings(p.push, o, s'.ids[o].kind)
    requires Covered(s'.ids, p)
    ensures AllCovered(s') && Named(s')
  {
    hide Relevant, Brings;
    forall o | o in s'.ids ensures SomeBrings(s'.processes, o, s'.ids[o].kind) {
      if o in s.ids {
        assert SomeBrings(s.processes, o, s.ids[o].kind);
        var q :| q in s.processes && Brings(s.processes[q].push, o, s.ids[o].kind);
        assert q in s'.processes && s'.processes[q].push == s.processes[q].push;
      } else {
        assert pid in s'.processes && s'.processes[pid].push == p.push;
      }
    }
  }

  lemma QuietCovers(s: State, s': State, pid: int, p: Process)
    requires AllCovered(s) && Named(s) && s'.processes == s.processes[pid := p] && s'.ids == s.ids
    requires (pid in s.processes ==> p.push == s.processes[pid].push) && Covered(s.ids, p)
    ensures AllCovered(s') && Named(s')
  {
    hide Covered, Named, AllCovered;
    MoveCovers(s, s', pid, p);
  }

  lemma NumberCovers(w: World, s: State, s': State, pid: int)
    requires Inv(w, s) && AllCovered(s) && Named(s) && Number(s, s', pid)
    ensures AllCovered(s') && Named(s')
  {
    hide Relevant, IsTopo, Index;
    var p := s.processes[pid];
    var p' := s'.processes[pid];
    assert ProcessOk(w, s, p);
    forall o | o in p'.mine ensures Brings(p'.push, o, p'.mine[o].kind) {
      assert o in p.toInsert;
    }
    QuietCovers(s, s', pid, p');
  }

  lemma ReadObjectsCovers(w: World, s: State, s': State, pid: int)
    requires Inv(w, s) && AllCovered(s) && Named(s) && ReadObjects(w, s, s', pid)
    ensures AllCovered(s') && Named(s')
  {
    hide IsTopo, Index, ResolvedObjects, Named;
    var p := s.processes[pid];
    var p' := s'.processes[pid];
    assert ProcessOk(w, s, p) && Covered(s.ids, p);
    forall o | o in Relevant(p') ensures p'.push.objects[o].kind in p'.left {
      assert p'.push.objects[o].kind != Commit;
    }
    QuietCovers(s, s', pid, p');
  }

  lemma LookUpCovers(s: State, s': State, pid: int)
    requires AllCovered(s) && Named(s) && LookUp(s, s', pid)
    ensures AllCovered(s') && Named(s')
  {
    hide Named;
    var p, p' := s.processes[pid], s'.processes[pid];
    assert Covered(s.ids, p);
    assert Relevant(p') == Relevant(p);
    QuietCovers(s, s', pid, p');
  }

  lemma NumberTheseCovers(s: State, s': State, pid: int, taking: seq<Oid>)
    requires AllCovered(s) && Named(s) && NumberThese(s, s', pid, taking)
    requires pid in s.processes && forall k :: k in s.processes[pid].left ==> k != Commit
    ensures AllCovered(s') && Named(s')
  {
    hide Named;
    var p := s.processes[pid];
    var p' := s'.processes[pid];
    assert Covered(s.ids, p);
    assert Relevant(p') == Relevant(p);
    assert forall o :: o in taking <==> o in Unnumbered(p, p.left[0]) by {
      assert forall o :: o in taking <==> o in AsSet(taking);
    }
    QuietCovers(s, s', pid, p');
  }

  lemma RecordCovers(w: World, s: State, s': State, pid: int)
    requires Inv(w, s) && AllCovered(s) && Named(s) && Record(s, s', pid)
    ensures AllCovered(s') && Named(s')
  {
    hide IsTopo, Index, Named;
    var p := s.processes[pid];
    var p' := s'.processes[pid];
    assert ProcessOk(w, s, p) && Covered(s.ids, p);
    assert Relevant(p') == Relevant(p);
    forall o | o in Relevant(p') ensures o in s'.ids {
      assert Calls(s.ids, p.mine, o, p.objOf[o]);
    }
    MoveCovers(s, s', pid, p');
  }

  /** The rest number nothing and only move on. */
  lemma OthersCover(w: World, s: State, s': State, pid: int)
    requires Inv(w, s) && AllCovered(s) && Named(s)
    requires Begin(w, s, s', pid) || Learn(s, s', pid) || Resolve(w, s, s', pid) || Locate(s, s', pid)
      || Race(s, s', pid) || Stop(s, s', pid)
    ensures AllCovered(s') && Named(s')
  {
    hide Relevant, IsTopo, Index, Named, HasEntry, ResolvedCommits, Filter;
    if pid in s.processes {
      assert ProcessOk(w, s, s.processes[pid]);
    }
    QuietCovers(s, s', pid, s'.processes[pid]);
  }

  lemma LateCovers(w: World, s: State, s': State, pid: int)
    requires AllCovered(s) && Named(s) && (Rank(w, s, s', pid) || Journal(w, s, s', pid))
    ensures AllCovered(s') && Named(s')
  {
    hide IsTopo, Index, Named, IsBuilt, Buildable, Outside;
    var p, p' := s.processes[pid], s'.processes[pid];
    assert Covered(s.ids, p);
    assert Relevant(p') == Relevant(p);
    QuietCovers(s, s', pid, p');
  }

  lemma StepCovers(w: World, s: State, s': State, pid: int)
    requires Inv(w, s) && AllCovered(s) && Named(s) && Step(w, s, s', pid)
    ensures AllCovered(s') && Named(s')
  {
    hide AllCovered, Named, Begin, Learn, Resolve, Locate, Number, ReadObjects, LookUp, NumberThese;
    hide Rank, Record, Race, Stop, JournalWith, IdsOk, SegmentsOk, AllApart;
    if Number(s, s', pid) {
      NumberCovers(w, s, s', pid);
    } else if ReadObjects(w, s, s', pid) {
      ReadObjectsCovers(w, s, s', pid);
    } else if LookUp(s, s', pid) {
      LookUpCovers(s, s', pid);
    } else if NumberObjects(s, s', pid) {
      var taking :| NumberThese(s, s', pid, taking);
      KindsLeft(w, s, s', pid, taking);
      NumberTheseCovers(s, s', pid, taking);
    } else if Record(s, s', pid) {
      RecordCovers(w, s, s', pid);
    } else if Rank(w, s, s', pid) || Journal(w, s, s', pid) {
      LateCovers(w, s, s', pid);
    } else {
      OthersCover(w, s, s', pid);
    }
  }

  lemma KindsLeft(w: World, s: State, s': State, pid: int, taking: seq<Oid>)
    requires Inv(w, s) && NumberThese(s, s', pid, taking)
    ensures pid in s.processes && forall k :: k in s.processes[pid].left ==> k != Commit
  {
    hide IsTopo, Index, Block, Unnumbered;
    assert ProcessOk(w, s, s.processes[pid]);
  }

  lemma {:induction false} RunIsCovered(w: World, run: seq<State>, i: nat)
    requires IsRun(w, run) && i < |run|
    ensures AllCovered(run[i]) && Named(run[i])
  {
    hide Inv, Step;
    if i > 0 {
      RunIsCovered(w, run, i - 1);
      RunIsSafe(w, run, i - 1);
      assert Next(w, run[i - 1], run[i - 1 + 1]);
      var pid :| Step(w, run[i - 1], run[i], pid);
      StepCovers(w, run[i - 1], run[i], pid);
    }
  }

  /** A finished push has its objects listed, and what is listed is numbered. */
  ghost predicate Listed(s: State)
  {
    && s.listed <= s.ids.Keys
    && (forall pid :: pid in s.processes && s.processes[pid].phase == Done ==> Relevant(s.processes[pid]) <= s.listed)
  }

  lemma JournalLists(w: World, s: State, s': State, pid: int)
    requires AllCovered(s) && Listed(s) && Journal(w, s, s', pid)
    ensures Listed(s') && s.listed <= s'.listed
  {
    hide IsBuilt;
    var p, p' := s.processes[pid], s'.processes[pid];
    assert Covered(s.ids, p);
    assert Relevant(p') == Relevant(p);
    assert Relevant(p) <= s.ids.Keys by { forall o | o in Relevant(p) ensures o in s.ids { } }
    hide Relevant;
    assert s'.listed == s.listed + Relevant(p) && s'.ids == s.ids;
    forall q | q in s'.processes && s'.processes[q].phase == Done
      ensures Relevant(s'.processes[q]) <= s'.listed
    {
      if q != pid {
        assert s'.processes[q] == s.processes[q];
      }
    }
  }

  /** One process moves, not to its end, and the index is left alone. */
  ghost predicate Unlisting(s: State, s': State, pid: int)
  {
    && pid in s'.processes && s'.processes[pid].phase != Done
    && s'.processes == s.processes[pid := s'.processes[pid]]
    && s.ids.Keys <= s'.ids.Keys && s'.listed == s.listed
  }

  lemma MoveLists(s: State, s': State, pid: int)
    requires Listed(s) && Unlisting(s, s', pid)
    ensures Listed(s')
  {
    hide Relevant;
    forall q | q in s'.processes && s'.processes[q].phase == Done ensures Relevant(s'.processes[q]) <= s'.listed {
      assert s'.processes[q] == s.processes[q];
    }
  }

  lemma EarlyIsUnlisting(w: World, s: State, s': State, pid: int)
    requires Begin(w, s, s', pid) || Learn(s, s', pid) || Resolve(w, s, s', pid) || Locate(s, s', pid)
      || Number(s, s', pid)
    ensures Unlisting(s, s', pid)
  {
    hide IsTopo, Block, ResolvedCommits, WellFormed, Taking, Nums, HasEntry, Filter, IdentityOf;
  }

  lemma LateIsUnlisting(w: World, s: State, s': State, pid: int)
    requires ReadObjects(w, s, s', pid) || LookUp(s, s', pid) || NumberObjects(s, s', pid) || Rank(w, s, s', pid)
      || Record(s, s', pid) || Race(s, s', pid) || Stop(s, s', pid)
    ensures Unlisting(s, s', pid)
  {
    hide Relevant, Index, Complete, Outside, Block, ResolvedObjects, Unnumbered;
  }

  lemma OthersList(w: World, s: State, s': State, pid: int)
    requires Listed(s) && Step(w, s, s', pid) && !Journal(w, s, s', pid)
    ensures Listed(s') && s'.listed == s.listed
  {
    hide Begin, Learn, Resolve, Locate, Number, ReadObjects, LookUp, NumberObjects, Rank, Record, Race, Stop;
    hide Listed, Journal;
    if Begin(w, s, s', pid) || Learn(s, s', pid) || Resolve(w, s, s', pid) || Locate(s, s', pid)
      || Number(s, s', pid) {
      EarlyIsUnlisting(w, s, s', pid);
    } else {
      LateIsUnlisting(w, s, s', pid);
    }
    MoveLists(s, s', pid);
  }

  lemma {:induction false} RunIsListed(w: World, run: seq<State>, i: nat, j: nat)
    requires IsRun(w, run) && i <= j < |run|
    ensures Listed(run[j]) && run[i].listed <= run[j].listed
    decreases j
  {
    hide Step, Listed, AllCovered;
    if j == 0 {
      NothingListed(run[0]);
    } else {
      RunIsListed(w, run, if i < j then i else j - 1, j - 1);
      RunIsCovered(w, run, j - 1);
      assert Next(w, run[j - 1], run[j - 1 + 1]);
      var pid :| Step(w, run[j - 1], run[j], pid);
      if Journal(w, run[j - 1], run[j], pid) {
        JournalLists(w, run[j - 1], run[j], pid);
      } else {
        OthersList(w, run[j - 1], run[j], pid);
      }
    }
  }

  lemma NothingListed(s: State)
    requires Init(s)
    ensures Listed(s)
  {
  }

  /** In every run, once a push has finished: each of its objects that is in a pack it
      recorded, or in none, is numbered and listed from then on, as the kind the push brings it
      as unless some other push brought it as another. */
  lemma DoneNumbersObjects(w: World, run: seq<State>, i: nat, j: nat, pid: int, o: Oid)
    requires IsRun(w, run) && i <= j < |run|
    requires pid in run[i].processes && run[i].processes[pid].phase == Done
    requires var p := run[i].processes[pid];
      && o in p.push.objects
      && (p.push.objects[o].packs == map[] || exists c :: c in p.push.objects[o].packs && c in p.toInsert)
    ensures o in run[i].ids && o in run[j].ids && run[j].ids[o] == run[i].ids[o]
    ensures o in run[j].listed
    ensures var p := run[i].processes[pid];
      || run[j].ids[o].kind == p.push.objects[o].kind
      || exists q :: q != pid && q in run[i].processes && Brings(run[i].processes[q].push, o, run[j].ids[o].kind)
  {
    RunIsCovered(w, run, i);
    RunIsSafe(w, run, i);
    RunOnlyGrows(w, run, i, j);
    RunIsListed(w, run, i, i);
    RunIsListed(w, run, i, j);
    hide Inv, Extends, IsRun;
    var s, p := run[i], run[i].processes[pid];
    assert Covered(s.ids, p) && o in Relevant(p);
    assert SomeBrings(s.processes, o, s.ids[o].kind);
    var q :| q in s.processes && Brings(s.processes[q].push, o, s.ids[o].kind);
    FinishedIsDistinct(w, s, pid, o);
  }

  lemma FinishedIsDistinct(w: World, s: State, pid: int, o: Oid)
    requires Inv(w, s) && pid in s.processes && o in s.processes[pid].push.objects
    ensures o !in s.processes[pid].push.commits && s.processes[pid].push.objects[o].kind != Commit
  {
    hide IsTopo, Index;
    assert ProcessOk(w, s, s.processes[pid]);
  }
}
