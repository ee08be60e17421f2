/** What each commit's pack stores, worked out by diffing it against its first
    parent.
*/
module Planning {
  import opened Graphs
  import opened Bands
  import opened Objects
  import opened TopoOrder
  import opened TreeDiff
  import opened Chains
  import Sections = SectionOrder

  /** An object of a commit's tree: the tree itself, or whatever stands at a path in it. */
  ghost predicate Holds(full: Store, root: Oid, oid: Oid)
  {
    oid == root || exists path :: StandsAt(full, root, path, oid)
  }

  ghost predicate StandsAt(full: Store, root: Oid, path: Path, oid: Oid)
  {
    Find(full, Some(root), path).Some? && Find(full, Some(root), path).value.oid == oid
  }

  function KindOf(isTree: bool): Kind
  {
    if isTree then Kind.Tree else Kind.Blob
  }

  ghost predicate Packs(entries: seq<Entry>, oid: Oid)
  {
    exists k :: 0 <= k < |entries| && entries[k].oid == oid
  }

  /** The entry says what the first change to its object says. */
  ghost predicate FromChange(changes: seq<Change>, e: Entry)
  {
    exists k ::
      && 0 <= k < |changes| && e == Entry(changes[k].now, KindOf(changes[k].isTree), changes[k].was, Encoded)
      && forall j :: 0 <= j < k ==> changes[j].now != e.oid
  }

  /** Trees before blobs. */
  ghost predicate TreesFirst(entries: seq<Entry>)
  {
    forall i, j :: 0 <= i < j < |entries| && entries[j].kind == Kind.Tree ==> entries[i].kind == Kind.Tree
  }

  /** A pack's entries: nothing for an unchanged tree, else its root and every
      changed object, each once, trees first. */
  ghost predicate Lists(root: Oid, base: Option<Oid>, changes: seq<Change>, entries: seq<Entry>)
  {
    if changes == [] && base == Some(root) then entries == []
    else
      && |entries| > 0 && entries[0] == Entry(root, Kind.Tree, base, Encoded)
      && Sections.DistinctOids(entries) && TreesFirst(entries)
      && (forall k :: 0 < k < |entries| ==> FromChange(changes, entries[k]))
      && (forall k :: 0 <= k < |changes| ==> Packs(entries, changes[k].now))
  }

  /** The two sections being filled. */
  ghost predicate Filling(root: Oid, base: Option<Oid>, changes: seq<Change>, n: nat, seen: set<Oid>,
                          trees: seq<Entry>, blobs: seq<Entry>)
    requires n <= |changes|
  {
    && |trees| > 0 && trees[0] == Entry(root, Kind.Tree, base, Encoded)
    && Sections.DistinctOids(trees + blobs)
    && (forall k :: 0 < k < |trees| ==> trees[k].kind == Kind.Tree && FromChange(changes, trees[k]))
    && (forall k :: 0 <= k < |blobs| ==> blobs[k].kind != Kind.Tree && FromChange(changes, blobs[k]))
    && (forall oid :: oid in seen <==> Packs(trees + blobs, oid))
    && (forall k :: 0 <= k < n ==> changes[k].now in seen)
  }

  /** Inserting an entry for a new object between two sections. */
  lemma InsertApart(trees: seq<Entry>, blobs: seq<Entry>, e: Entry)
    requires Sections.DistinctOids(trees + blobs) && !Packs(trees + blobs, e.oid)
    ensures Sections.DistinctOids(trees + [e] + blobs)
  {
    var was, now := trees + blobs, trees + [e] + blobs;
    forall k | 0 <= k < |was| ensures was[k].oid != e.oid {
    }
    forall i, j | 0 <= i < j < |now| ensures now[i].oid != now[j].oid {
      assert i != |trees| ==> now[i] == was[if i > |trees| then i - 1 else i];
      assert j != |trees| ==> now[j] == was[if j > |trees| then j - 1 else j];
    }
  }

  lemma InsertPacks(trees: seq<Entry>, blobs: seq<Entry>, e: Entry, oid: Oid)
    ensures Packs(trees + [e] + blobs, oid) <==> Packs(trees + blobs, oid) || oid == e.oid
  {
    var was, now := trees + blobs, trees + [e] + blobs;
    if Packs(was, oid) {
      var k :| 0 <= k < |was| && was[k].oid == oid;
      assert now[if k < |trees| then k else k + 1].oid == oid;
    }
    assert now[|trees|].oid == e.oid;
    if Packs(now, oid) {
      var k :| 0 <= k < |now| && now[k].oid == oid;
      assert k != |trees| ==> now[k] == was[if k < |trees| then k else k - 1];
    }
  }

  lemma FillTree(root: Oid, base: Option<Oid>, changes: seq<Change>, n: nat, seen: set<Oid>,
                 trees: seq<Entry>, blobs: seq<Entry>, e: Entry)
    requires n < |changes| && Filling(root, base, changes, n, seen, trees, blobs)
    requires e == Entry(changes[n].now, Kind.Tree, changes[n].was, Encoded) && changes[n].isTree && e.oid !in seen
    ensures Filling(root, base, changes, n + 1, seen + {e.oid}, trees + [e], blobs)
  {
    hide Packs, Sections.DistinctOids;
    assert FromChange(changes, e);
    InsertApart(trees, blobs, e);
    forall oid ensures oid in seen + {e.oid} <==> Packs(trees + [e] + blobs, oid) {
      InsertPacks(trees, blobs, e, oid);
    }
  }

  lemma FillBlob(root: Oid, base: Option<Oid>, changes: seq<Change>, n: nat, seen: set<Oid>,
                 trees: seq<Entry>, blobs: seq<Entry>, e: Entry)
    requires n < |changes| && Filling(root, base, changes, n, seen, trees, blobs)
    requires e == Entry(changes[n].now, Kind.Blob, changes[n].was, Encoded) && !changes[n].isTree && e.oid !in seen
    ensures Filling(root, base, changes, n + 1, seen + {e.oid}, trees, blobs + [e])
  {
    var was, now := trees + blobs, trees + (blobs + [e]);
    assert now == was + [e];
    assert FromChange(changes, e);
    assert !Packs(was, e.oid);
    assert forall k :: 0 <= k < |was| ==> was[k].oid != e.oid;
    forall oid ensures oid in seen + {e.oid} <==> Packs(now, oid) {
      if Packs(was, oid) {
        var k :| 0 <= k < |was| && was[k].oid == oid;
        assert now[k].oid == oid;
      }
      assert now[|was|].oid == e.oid;
    }
  }

  /** Turns a diff into pack entries. */
  method OrderEntries(root: Oid, base: Option<Oid>, changes: seq<Change>) returns (entries: seq<Entry>)
    ensures Lists(root, base, changes, entries)
  {
    if changes == [] && base == Some(root) {
      return [];
    }
    var seen := {root};
    var trees := [Entry(root, Kind.Tree, base, Encoded)];
    var blobs: seq<Entry> := [];
    var i := 0;
    assert (trees + blobs)[0].oid == root;
    while i < |changes|
      invariant i <= |changes| && Filling(root, base, changes, i, seen, trees, blobs)
    {
      var c := changes[i];
      if c.now !in seen {
        var e := Entry(c.now, KindOf(c.isTree), c.was, Encoded);
        if c.isTree {
          FillTree(root, base, changes, i, seen, trees, blobs, e);
          trees := trees + [e];
        } else {
          FillBlob(root, base, changes, i, seen, trees, blobs, e);
          blobs := blobs + [e];
        }
        seen := seen + {c.now};
      }
      i := i + 1;
    }
    entries := trees + blobs;
  }

  // --------------------------------------------------- what a pack supplies

  /** The pack a complete diff of a commit's tree against its base's plans. */
  ghost predicate Planned(full: Store, root: Oid, base: Option<Oid>, entries: seq<Entry>)
  {
    exists d :: Exact(full, base, Some(root), false, d) && Lists(root, base, d.changes, entries)
  }

  /** Every object of the tree is in its pack or in the base's tree. */
  lemma PackOrBase(full: Store, root: Oid, base: Option<Oid>, entries: seq<Entry>, oid: Oid)
    requires Planned(full, root, base, entries) && Holds(full, root, oid)
    ensures Packs(entries, oid) || (base.Some? && Holds(full, base.value, oid))
  {
    hide Find;
    var d :| Exact(full, base, Some(root), false, d) && Lists(root, base, d.changes, entries);
    if oid == root {
      if entries != [] {
        assert entries[0].oid == root;
      }
    } else {
      var path :| StandsAt(full, root, path, oid);
      assert path != [] by { NothingAtNothing(full, Some(root)); }
      if ChangedAt(d.changes, path) {
        var k :| 0 <= k < |d.changes| && d.changes[k].path == path;
        assert ChangeTrue(full, base, Some(root), d.changes[k]);
      } else {
        assert Find(full, base, path) == Find(full, Some(root), path);
        if base.None? {
          NothingBelow(full, path);
        }
        assert StandsAt(full, base.value, path, oid);
      }
    }
  }

  lemma NothingAtNothing(full: Store, root: Option<Oid>)
    ensures Find(full, root, []) == None
  {
  }

  /** A planned entry deltas against an object of the base's tree. */
  lemma BaseIsInBase(full: Store, root: Oid, base: Option<Oid>, entries: seq<Entry>, k: nat)
    requires Planned(full, root, base, entries) && k < |entries| && entries[k].base.Some?
    ensures base.Some? && Holds(full, base.value, entries[k].base.value)
  {
    hide Find;
    var d :| Exact(full, base, Some(root), false, d) && Lists(root, base, d.changes, entries);
    if k > 0 {
      assert FromChange(d.changes, entries[k]);
      var j :| 0 <= j < |d.changes|
        && entries[k] == Entry(d.changes[j].now, KindOf(d.changes[j].isTree), d.changes[j].was, Encoded);
      var path := d.changes[j].path;
      assert ChangeTrue(full, base, Some(root), d.changes[j]);
      if base.None? {
        NothingBelow(full, path);
      }
      assert StandsAt(full, base.value, path, entries[k].base.value);
    }
  }

  // ---------------------------------------------------------- the whole push

  /** A push to plan: its commits' parents and root trees, and the root trees of
      the first parents it does not carry. */
  datatype PushPlan = PushPlan(batch: Batch, rootOf: map<Oid, Oid>, boundaryRoots: map<Oid, Oid>,
                               packs: map<Oid, seq<Entry>>)

  /** The tree a commit is diffed against: its first parent's, wherever that is. */
  function BaseRoot(batch: Batch, rootOf: map<Oid, Oid>, boundaryRoots: map<Oid, Oid>, c: Oid): Option<Oid>
    requires c in batch
  {
    if batch[c] == [] then None
    else if batch[c][0] in rootOf then Some(rootOf[batch[c][0]])
    else if batch[c][0] in boundaryRoots then Some(boundaryRoots[batch[c][0]])
    else None
  }

  /** Every commit of the push was planned. */
  ghost predicate AllPlanned(full: Store, p: PushPlan)
  {
    && p.rootOf.Keys == p.batch.Keys
    && forall c :: c in p.batch ==> CommitPlanned(full, p, c)
  }

  ghost predicate CommitPlanned(full: Store, p: PushPlan, c: Oid)
  {
    && c in p.batch && c in p.rootOf && c in p.packs
    && Planned(full, p.rootOf[c], BaseRoot(p.batch, p.rootOf, p.boundaryRoots, c), p.packs[c])
  }

  ghost function FirstParent(batch: Batch): (Oid, Oid) -> bool
  {
    (c, p) => c in batch && p in batch && batch[c] != [] && batch[c][0] == p
  }

  /** A commit on `c`'s first-parent line, within the push. */
  ghost predicate OnLine(batch: Batch, c: Oid, a: Oid)
  {
    Reaches(FirstParent(batch), {c}, a)
  }

  /** `a`'s first parent is not of this push, and its tree holds `oid`. */
  ghost predicate AtBoundary(full: Store, p: PushPlan, a: Oid, oid: Oid)
  {
    && a in p.batch && p.batch[a] != [] && p.batch[a][0] !in p.batch
    && p.batch[a][0] in p.boundaryRoots && Holds(full, p.boundaryRoots[p.batch[a][0]], oid)
  }

  /** Some pack on `c`'s first-parent line has `oid`, or the tree of the boundary commit at its end. */
  ghost predicate Supplied(full: Store, p: PushPlan, c: Oid, oid: Oid)
  {
    exists a :: OnLine(p.batch, c, a) && Supplies(full, p, a, oid)
  }

  ghost predicate Supplies(full: Store, p: PushPlan, a: Oid, oid: Oid)
  {
    (a in p.packs && Packs(p.packs[a], oid)) || AtBoundary(full, p, a, oid)
  }

  lemma SuppliedHere(full: Store, p: PushPlan, c: Oid, oid: Oid)
    requires Supplies(full, p, c, oid)
    ensures Supplied(full, p, c, oid)
  {
    hide Reaches, Supplies;
    ReachSeed(FirstParent(p.batch), {c}, c);
    assert OnLine(p.batch, c, c);
  }

  lemma SuppliedByParent(full: Store, p: PushPlan, c: Oid, q: Oid, oid: Oid)
    requires FirstParent(p.batch)(c, q) && Supplied(full, p, q, oid)
    ensures Supplied(full, p, c, oid)
  {
    hide Reaches, Supplies;
    var a :| OnLine(p.batch, q, a) && Supplies(full, p, a, oid);
    var edge := FirstParent(p.batch);
    ReachSeed(edge, {c}, c);
    ReachStep(edge, {c}, c, q);
    var mid := {q};
    assert forall m :: m in mid ==> Reaches(edge, {c}, m);
    ReachTrans(edge, {c}, mid, a);
    assert OnLine(p.batch, c, a);
  }

  /** Whatever the base's tree holds is supplied one commit up. */
  lemma BaseIsSupplied(full: Store, p: PushPlan, order: seq<Oid>, i: nat, oid: Oid)
    requires AllPlanned(full, p) && IsTopo(p.batch, order) && i < |order| && order[i] in p.batch
    requires var base := BaseRoot(p.batch, p.rootOf, p.boundaryRoots, order[i]);
      base.Some? && Holds(full, base.value, oid)
    ensures Supplied(full, p, order[i], oid)
    decreases i, 0
  {
    hide Holds, Supplied, CommitPlanned;
    var c := order[i];
    var q := p.batch[c][0];
    if q in p.rootOf {
      assert q in p.batch && q in p.batch[c];
      assert q in order[..i];
      var j :| 0 <= j < i && order[j] == q;
      TreeIsSupplied(full, p, order, j, oid);
      SuppliedByParent(full, p, c, q, oid);
    } else {
      assert AtBoundary(full, p, c, oid);
      SuppliedHere(full, p, c, oid);
    }
  }

  /** Every object of a commit's tree is in its own pack, in the pack of a
      first-parent ancestor of the push, or in the boundary commit's tree. */
  lemma TreeIsSupplied(full: Store, p: PushPlan, order: seq<Oid>, i: nat, oid: Oid)
    requires AllPlanned(full, p) && IsTopo(p.batch, order) && i < |order| && order[i] in p.batch
    requires Holds(full, p.rootOf[order[i]], oid)
    ensures Supplied(full, p, order[i], oid)
    decreases i, 1
  {
    hide Holds, Supplied, Planned;
    var c := order[i];
    assert CommitPlanned(full, p, c);
    PackOrBase(full, p.rootOf[c], BaseRoot(p.batch, p.rootOf, p.boundaryRoots, c), p.packs[c], oid);
    if Packs(p.packs[c], oid) {
      SuppliedHere(full, p, c, oid);
    } else {
      BaseIsSupplied(full, p, order, i, oid);
    }
  }

  /** Every planned base likewise. */
  lemma PlannedBaseIsSupplied(full: Store, p: PushPlan, order: seq<Oid>, c: Oid, k: nat)
    requires AllPlanned(full, p) && IsTopo(p.batch, order) && c in p.batch
    requires c in p.packs && k < |p.packs[c]| && p.packs[c][k].base.Some?
    ensures Supplied(full, p, c, p.packs[c][k].base.value)
  {
    hide Holds, Supplied, Planned;
    assert c in AsSet(order);
    var i :| 0 <= i < |order| && order[i] == c;
    assert CommitPlanned(full, p, c);
    BaseIsInBase(full, p.rootOf[c], BaseRoot(p.batch, p.rootOf, p.boundaryRoots, c), p.packs[c], k);
    BaseIsSupplied(full, p, order, i, p.packs[c][k].base.value);
  }
}
