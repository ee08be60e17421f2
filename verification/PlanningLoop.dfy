/** The planning loop: diff every commit against its base, fetching whatever
    trees a round finds missing, until every commit has an answer.
*/
module PlanningLoop {
  import opened Bands
  import opened Objects
  import opened TopoOrder
  import opened TreeDiff
  import opened Chains
  import opened Planning

  /** A commit to plan, with its entries once they are known, or that it cannot be. */
  datatype Work = Work(commit: Oid, root: Oid, base: Option<Oid>, entries: Option<seq<Entry>>, unplannable: bool) {
    predicate Settled()
    {
      entries.Some? || unplannable
    }
  }

  /** Trees asked for so far, an absent one remembered as such. */
  type Fetched = map<Oid, Option<seq<Child>>>

  /** The trees in hand: the push's own, then whatever was fetched. */
  function Reader(inPush: Store, fetched: Fetched): Store
  {
    map t | t in inPush.Keys + fetched.Keys && (t in inPush || fetched[t].Some?) ::
      if t in inPush then inPush[t] else fetched[t].value
  }

  /** What was fetched is what the store holds. */
  ghost predicate FetchedFrom(stored: Store, fetched: Fetched)
  {
    forall t :: t in fetched ==> fetched[t] == if t in stored then Some(stored[t]) else None
  }

  lemma ReaderReads(inPush: Store, stored: Store, fetched: Fetched, full: Store)
    requires Extends(inPush, full) && Extends(stored, full) && FetchedFrom(stored, fetched)
    ensures Extends(Reader(inPush, fetched), full)
    ensures forall t :: t in fetched && fetched[t].Some? ==> t in Reader(inPush, fetched)
  {
  }

  /** A tree of the commit, or of its base, is in neither the push nor the store. */
  ghost predicate Lacks(inPush: Store, stored: Store, full: Store, item: Work, tree: Oid)
  {
    TreeOf(full, item.base, Some(item.root), tree) && tree !in inPush && tree !in stored
  }

  /** An answer is right: the plan of the whole difference, or a tree that is nowhere. */
  ghost predicate ItemOk(inPush: Store, stored: Store, full: Store, item: Work)
  {
    && (item.entries.Some? ==> Planned(full, item.root, item.base, item.entries.value))
    && (item.unplannable ==> exists tree :: Lacks(inPush, stored, full, item, tree))
  }

  /** Same question, and an answer never withdrawn. */
  ghost predicate Advances(was: Work, now: Work)
  {
    was.commit == now.commit && was.root == now.root && was.base == now.base && (was.Settled() ==> now == was)
  }

  // -------------------------------------------------- the trees worth fetching

  /** Every oid the trees of `full` mention. */
  ghost function Mentioned(full: Store): set<Oid>
  {
    set t, k | t in full && 0 <= k < |full[t]| :: full[t][k].oid
  }

  lemma {:induction false} TreeIsMentioned(full: Store, root: Option<Oid>, path: Path, tree: Oid)
    requires TreeAt(full, root, path, tree)
    ensures tree in Mentioned(full)
    decreases |path|
  {
    var children := ChildrenOf(full, root);
    if |path| == 1 {
      var k := EntryIsFrom(children, path[0]);
      MentionedAt(full, root.value, k);
    } else {
      TreeIsMentioned(full, Sub(EntryAt(children, path[0])), path[1..], tree);
    }
  }

  lemma MentionedAt(full: Store, t: Oid, k: nat)
    requires t in full && k < |full[t]|
    ensures full[t][k].oid in Mentioned(full)
  {
  }

  /** The roots to diff, and every oid a tree mentions. */
  ghost function Worth(full: Store, items: seq<Work>): set<Oid>
  {
    Mentioned(full) + (set k | 0 <= k < |items| :: items[k].root)
    + (set k | 0 <= k < |items| && items[k].base.Some? :: items[k].base.value)
  }

  lemma LackingIsWorth(full: Store, items: seq<Work>, k: nat, tree: Oid)
    requires k < |items| && TreeOf(full, items[k].base, Some(items[k].root), tree)
    ensures tree in Worth(full, items)
  {
    if items[k].base == Some(tree) {
      assert items[k].base.Some? && items[k].base.value == tree;
    } else if items[k].root == tree {
      assert items[k].root == tree;
    } else {
      var path :| TreeAt(full, items[k].base, path, tree) || TreeAt(full, Some(items[k].root), path, tree);
      if TreeAt(full, items[k].base, path, tree) {
        TreeIsMentioned(full, items[k].base, path, tree);
      } else {
        TreeIsMentioned(full, Some(items[k].root), path, tree);
      }
    }
  }

  lemma WorthStays(full: Store, items: seq<Work>, after: seq<Work>)
    requires |items| == |after| && forall k :: 0 <= k < |items| ==> Advances(items[k], after[k])
    ensures Worth(full, after) == Worth(full, items)
  {
    forall x | x in Worth(full, after) - Mentioned(full) ensures x in Worth(full, items) {
      if k :| 0 <= k < |after| && after[k].root == x {
        assert items[k].root == x;
      } else {
        var k :| 0 <= k < |after| && after[k].base.Some? && after[k].base.value == x;
        assert items[k].base.value == x;
      }
    }
    forall x | x in Worth(full, items) - Mentioned(full) ensures x in Worth(full, after) {
      if k :| 0 <= k < |items| && items[k].root == x {
        assert after[k].root == x;
      } else {
        var k :| 0 <= k < |items| && items[k].base.Some? && items[k].base.value == x;
        assert after[k].base.value == x;
      }
    }
  }

  // --------------------------------------------------------------- one round

  /** What a tree found unreadable means for its commit: the commit is
      unplannable, or the tree is wanted next round. */
  datatype Step = Step(item: Work, wanted: set<Oid>)

  /** Advances one commit: diffs it with the trees in hand. */
  method Advance(inPush: Store, ghost stored: Store, fetched: Fetched, item: Work, ghost full: Store,
                 ghost rank: Oid -> nat)
    returns (s: Step)
    requires Extends(inPush, full) && Extends(stored, full) && FetchedFrom(stored, fetched) && AllUnique(full)
    requires Ranked(full, rank)
    requires ItemOk(inPush, stored, full, item) && !item.Settled()
    ensures Advances(item, s.item) && ItemOk(inPush, stored, full, s.item)
    ensures s.item.Settled() || s.wanted != {}
    ensures s.wanted !! fetched.Keys
    ensures forall t :: t in s.wanted ==> TreeOf(full, item.base, Some(item.root), t)
  {
    hide Exact, TreeOf, TreeDiff.Truthful, Lists, Ranked, AllUnique, Extends;
    ReaderReads(inPush, stored, fetched, full);
    var store := Reader(inPush, fetched);
    var d := DiffTrees(store, item.base, item.root, false, full, rank);
    if d.unreadable == [] {
      var entries := OrderEntries(item.root, item.base, d.changes);
      assert Planned(full, item.root, item.base, entries);
      return Step(item.(entries := Some(entries)), {});
    }
    var wanted: set<Oid> := {};
    var i := 0;
    while i < |d.unreadable|
      invariant i <= |d.unreadable|
      invariant i > 0 ==> wanted != {}
      invariant wanted !! fetched.Keys
      invariant forall t :: t in wanted ==> TreeOf(full, item.base, Some(item.root), t)
    {
      var tree := d.unreadable[i];
      assert tree in d.unreadable;
      if tree in fetched {
        // Fetched and still unreadable: the store does not have it.
        assert fetched[tree].None?;
        assert Lacks(inPush, stored, full, item.(unplannable := true), tree);
        return Step(item.(unplannable := true), wanted);
      }
      wanted := wanted + {tree};
      i := i + 1;
    }
    s := Step(item, wanted);
  }

  /** Takes each open diff as far as the trees at hand allow, and collects what stops them. */
  method DiffRound(inPush: Store, ghost stored: Store, fetched: Fetched, items: seq<Work>, ghost full: Store,
                   ghost rank: Oid -> nat)
    returns (after: seq<Work>, round: set<Oid>)
    requires Extends(inPush, full) && Extends(stored, full) && FetchedFrom(stored, fetched)
    requires AllUnique(full) && Ranked(full, rank)
    requires forall k :: 0 <= k < |items| ==> ItemOk(inPush, stored, full, items[k])
    ensures |after| == |items| && forall k :: 0 <= k < |items| ==> Advances(items[k], after[k])
    ensures forall k :: 0 <= k < |after| ==> ItemOk(inPush, stored, full, after[k])
    ensures round == {} ==> forall k :: 0 <= k < |after| ==> after[k].Settled()
    ensures round !! fetched.Keys && round <= Worth(full, items)
    ensures forall t :: t in round ==> NeededBy(full, items, t)
  {
    hide TreeOf, Ranked, AllUnique, Extends, ItemOk, Worth, FetchedFrom;
    after, round := [], {};
    var i := 0;
    while i < |items|
      invariant i <= |items| && |after| == i
      invariant forall k :: 0 <= k < i ==> Advances(items[k], after[k]) && ItemOk(inPush, stored, full, after[k])
      invariant round == {} ==> forall k :: 0 <= k < i ==> after[k].Settled()
      invariant round !! fetched.Keys && round <= Worth(full, items)
      invariant forall t :: t in round ==> NeededBy(full, items, t)
    {
      if items[i].Settled() {
        after := after + [items[i]];
      } else {
        var s := Advance(inPush, stored, fetched, items[i], full, rank);
        forall t | t in s.wanted ensures t in Worth(full, items) { LackingIsWorth(full, items, i, t); }
        after := after + [s.item];
        round := round + s.wanted;
      }
      i := i + 1;
    }
  }

  /** A round's answers, or an object of it that is held and is no tree. */
  datatype ReadOutcome = Trees(read: Fetched) | NotATree(oid: Oid)

  /** Answers for exactly the trees asked for, present or absent, unless one of them
      is among those held that do not parse as trees. */
  method ReadTrees(stored: Store, broken: set<Oid>, round: set<Oid>) returns (r: ReadOutcome)
    ensures r.NotATree? <==> round * broken != {}
    ensures r.NotATree? ==> r.oid in round && r.oid in broken
    ensures r.Trees? ==> r.read.Keys == round && FetchedFrom(stored, r.read)
  {
    var bad := round * broken;
    if bad != {} {
      var oid := Pick(bad);
      return NotATree(oid);
    }
    r := Trees(map t | t in round :: if t in stored then Some(stored[t]) else None);
  }

  /** Some item is diffed over that tree. */
  ghost predicate NeededBy(full: Store, items: seq<Work>, tree: Oid)
  {
    exists k :: 0 <= k < |items| && TreeOf(full, items[k].base, Some(items[k].root), tree)
  }

  /** Some commit of the push, or what it is diffed against, has that tree. */
  ghost predicate NeededTree(full: Store, batch: Batch, rootOf: map<Oid, Oid>, boundaryRoots: map<Oid, Oid>, tree: Oid)
    requires rootOf.Keys == batch.Keys
  {
    exists c :: c in batch && TreeOf(full, BaseRoot(batch, rootOf, boundaryRoots, c), Some(rootOf[c]), tree)
  }

  lemma NeededByIsNeeded(full: Store, batch: Batch, rootOf: map<Oid, Oid>, boundaryRoots: map<Oid, Oid>,
                         items: seq<Work>, tree: Oid)
    requires rootOf.Keys == batch.Keys && Asks(batch, rootOf, boundaryRoots, items, batch.Keys)
    requires NeededBy(full, items, tree)
    ensures NeededTree(full, batch, rootOf, boundaryRoots, tree)
  {
    hide TreeOf;
    var k :| 0 <= k < |items| && TreeOf(full, items[k].base, Some(items[k].root), tree);
    assert AsksOf(batch, rootOf, boundaryRoots, items[k]);
  }

  /** Each commit of the push once, with what it is diffed against. */
  ghost predicate Asks(batch: Batch, rootOf: map<Oid, Oid>, boundaryRoots: map<Oid, Oid>, items: seq<Work>,
                       commits: set<Oid>)
    requires rootOf.Keys == batch.Keys
  {
    && (forall k :: 0 <= k < |items| ==> items[k].commit in commits && AsksOf(batch, rootOf, boundaryRoots, items[k]))
    && (forall i, j :: 0 <= i < j < |items| ==> items[i].commit != items[j].commit)
    && (forall c :: c in commits ==> Asked(items, c))
  }

  ghost predicate AsksOf(batch: Batch, rootOf: map<Oid, Oid>, boundaryRoots: map<Oid, Oid>, item: Work)
    requires rootOf.Keys == batch.Keys
  {
    && item.commit in batch && item.root == rootOf[item.commit]
    && item.base == BaseRoot(batch, rootOf, boundaryRoots, item.commit)
  }

  ghost predicate Asked(items: seq<Work>, c: Oid)
  {
    exists k :: 0 <= k < |items| && items[k].commit == c
  }

  method Pending(batch: Batch, rootOf: map<Oid, Oid>, boundaryRoots: map<Oid, Oid>) returns (items: seq<Work>)
    requires rootOf.Keys == batch.Keys
    ensures Asks(batch, rootOf, boundaryRoots, items, batch.Keys)
    ensures forall k :: 0 <= k < |items| ==> !items[k].Settled()
  {
    items := [];
    var left := batch.Keys;
    while left != {}
      invariant left <= batch.Keys
      invariant Asks(batch, rootOf, boundaryRoots, items, batch.Keys - left)
      invariant forall k :: 0 <= k < |items| ==> !items[k].Settled()
      decreases |left|
    {
      var c := Pick(left);
      var item := Work(c, rootOf[c], BaseRoot(batch, rootOf, boundaryRoots, c), None, false);
      assert forall x :: x in batch.Keys - (left - {c}) ==> x == c || x in batch.Keys - left;
      AskMore(batch, rootOf, boundaryRoots, items, batch.Keys - left, item);
      assert batch.Keys - (left - {c}) == batch.Keys - left + {c};
      items := items + [item];
      left := left - {c};
    }
    assert batch.Keys - left == batch.Keys;
  }

  lemma AskMore(batch: Batch, rootOf: map<Oid, Oid>, boundaryRoots: map<Oid, Oid>, items: seq<Work>, commits: set<Oid>,
                item: Work)
    requires rootOf.Keys == batch.Keys && Asks(batch, rootOf, boundaryRoots, items, commits)
    requires item.commit in batch && item.commit !in commits && item.root == rootOf[item.commit]
    requires item.base == BaseRoot(batch, rootOf, boundaryRoots, item.commit)
    ensures Asks(batch, rootOf, boundaryRoots, items + [item], commits + {item.commit})
  {
    var more := items + [item];
    forall c | c in commits + {item.commit} ensures Asked(more, c) {
      if c == item.commit {
        assert more[|items|].commit == c;
      } else {
        var k :| 0 <= k < |items| && items[k].commit == c;
        assert more[k].commit == c;
      }
    }
  }

  lemma AsksStill(batch: Batch, rootOf: map<Oid, Oid>, boundaryRoots: map<Oid, Oid>, items: seq<Work>, after: seq<Work>)
    requires rootOf.Keys == batch.Keys && Asks(batch, rootOf, boundaryRoots, items, batch.Keys)
    requires |items| == |after| && forall k :: 0 <= k < |items| ==> Advances(items[k], after[k])
    ensures Asks(batch, rootOf, boundaryRoots, after, batch.Keys)
  {
    forall c | c in batch.Keys ensures Asked(after, c) {
      assert Asked(items, c);
      var k :| 0 <= k < |items| && items[k].commit == c;
      assert after[k].commit == c;
    }
  }

  /** A commit that got no pack has a tree, of its own or its base's, that is nowhere. */
  ghost predicate Unplannable(inPush: Store, stored: Store, full: Store, root: Oid, base: Option<Oid>)
  {
    exists tree :: TreeOf(full, base, Some(root), tree) && tree !in inPush && tree !in stored
  }

  datatype PlanOutcome = Plans(packs: map<Oid, seq<Entry>>) | Broken(oid: Oid)

  /** Works out what each commit's pack stores.

      The rounds end, since each asks for trees none before it did. A commit is
      left without a pack only for a tree that is nowhere; every other pack is
      the plan of the commit's whole difference from its base. It fails only over
      an object some diff needs that is held and is no tree.
  */
  method PlanPush(batch: Batch, rootOf: map<Oid, Oid>, boundaryRoots: map<Oid, Oid>, inPush: Store, stored: Store,
                  broken: set<Oid>, ghost full: Store, ghost rank: Oid -> nat)
    returns (r: PlanOutcome)
    requires rootOf.Keys == batch.Keys
    requires Extends(inPush, full) && Extends(stored, full) && AllUnique(full) && Ranked(full, rank)
    ensures r.Plans? ==> r.packs.Keys <= batch.Keys
    ensures r.Plans? ==> forall c :: c in r.packs ==>
      Planned(full, rootOf[c], BaseRoot(batch, rootOf, boundaryRoots, c), r.packs[c])
    ensures r.Plans? ==> forall c :: c in batch && c !in r.packs ==>
      Unplannable(inPush, stored, full, rootOf[c], BaseRoot(batch, rootOf, boundaryRoots, c))
    ensures r.Broken? ==> r.oid in broken && NeededTree(full, batch, rootOf, boundaryRoots, r.oid)
  {
    hide Ranked, AllUnique, Extends, ItemOk, Worth, Advances, Asks, Reader, TreeOf, Planned, NeededBy, NeededTree;
    var items := Pending(batch, rootOf, boundaryRoots);
    StartOk(inPush, stored, full, items);
    var fetched: Fetched := map[];
    ghost var worth := Worth(full, items);
    while true
      invariant Asks(batch, rootOf, boundaryRoots, items, batch.Keys)
      invariant forall k :: 0 <= k < |items| ==> ItemOk(inPush, stored, full, items[k])
      invariant FetchedFrom(stored, fetched) && Worth(full, items) == worth
      decreases |worth - fetched.Keys|
    {
      var after, round := DiffRound(inPush, stored, fetched, items, full, rank);
      ghost var asked := items;
      AsksStill(batch, rootOf, boundaryRoots, items, after);
      WorthStays(full, items, after);
      items := after;
      if round == {} {
        break;
      }
      RoundShrinks(worth, fetched.Keys, round);
      var read := ReadTrees(stored, broken, round);
      if read.NotATree? {
        NeededByIsNeeded(full, batch, rootOf, boundaryRoots, asked, read.oid);
        return Broken(read.oid);
      }
      FetchMore(stored, fetched, read.read);
      fetched := fetched + read.read;
    }
    var packs := Collect(batch, rootOf, boundaryRoots, inPush, stored, full, items);
    r := Plans(packs);
  }

  lemma StartOk(inPush: Store, stored: Store, full: Store, items: seq<Work>)
    requires forall k :: 0 <= k < |items| ==> !items[k].Settled()
    ensures forall k :: 0 <= k < |items| ==> ItemOk(inPush, stored, full, items[k])
  {
  }

  lemma RoundShrinks(worth: set<Oid>, was: set<Oid>, round: set<Oid>)
    requires round != {} && round !! was && round <= worth
    ensures |worth - (was + round)| < |worth - was|
  {
    assert worth - was == (worth - (was + round)) + round;
    assert (worth - (was + round)) !! round;
  }

  lemma FetchMore(stored: Store, fetched: Fetched, read: Fetched)
    requires FetchedFrom(stored, fetched) && FetchedFrom(stored, read)
    ensures FetchedFrom(stored, fetched + read) && (fetched + read).Keys == fetched.Keys + read.Keys
  {
  }

  /** The packs of the commits that got one. */
  method Collect(batch: Batch, rootOf: map<Oid, Oid>, boundaryRoots: map<Oid, Oid>, ghost inPush: Store,
                 ghost stored: Store, ghost full: Store, items: seq<Work>)
    returns (packs: map<Oid, seq<Entry>>)
    requires rootOf.Keys == batch.Keys && Asks(batch, rootOf, boundaryRoots, items, batch.Keys)
    requires forall k :: 0 <= k < |items| ==> items[k].Settled() && ItemOk(inPush, stored, full, items[k])
    ensures packs.Keys <= batch.Keys
    ensures forall c :: c in packs ==> Planned(full, rootOf[c], BaseRoot(batch, rootOf, boundaryRoots, c), packs[c])
    ensures forall c :: c in batch && c !in packs ==>
      Unplannable(inPush, stored, full, rootOf[c], BaseRoot(batch, rootOf, boundaryRoots, c))
  {
    hide Planned, TreeOf;
    packs := map[];
    var i := 0;
    while i < |items|
      invariant i <= |items| && packs.Keys <= batch.Keys
      invariant forall c :: c in packs ==> Planned(full, rootOf[c], BaseRoot(batch, rootOf, boundaryRoots, c), packs[c])
      invariant forall k :: 0 <= k < i && items[k].entries.Some? ==> items[k].commit in packs
    {
      assert ItemOk(inPush, stored, full, items[i]);
      if items[i].entries.Some? {
        packs := packs[items[i].commit := items[i].entries.value];
      }
      i := i + 1;
    }
    forall c | c in batch && c !in packs
      ensures Unplannable(inPush, stored, full, rootOf[c], BaseRoot(batch, rootOf, boundaryRoots, c))
    {
      assert Asked(items, c);
      var k :| 0 <= k < |items| && items[k].commit == c;
      var tree :| Lacks(inPush, stored, full, items[k], tree);
    }
  }

  /** With every tree in the push or the store, the whole push is planned. */
  lemma CompleteIsPlanned(p: PushPlan, inPush: Store, stored: Store, full: Store)
    requires p.rootOf.Keys == p.batch.Keys && p.packs.Keys <= p.batch.Keys
    requires forall c :: c in p.packs ==>
      Planned(full, p.rootOf[c], BaseRoot(p.batch, p.rootOf, p.boundaryRoots, c), p.packs[c])
    requires forall c :: c in p.batch && c !in p.packs ==>
      Unplannable(inPush, stored, full, p.rootOf[c], BaseRoot(p.batch, p.rootOf, p.boundaryRoots, c))
    requires forall c :: c in p.batch ==>
      !Unplannable(inPush, stored, full, p.rootOf[c], BaseRoot(p.batch, p.rootOf, p.boundaryRoots, c))
    ensures AllPlanned(full, p)
  {
    hide Planned, Unplannable;
    forall c | c in p.batch ensures CommitPlanned(full, p, c) {
    }
  }
}
