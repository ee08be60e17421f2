/** What changed from one tree to another, name by name and level by level. */
module TreeDiff {
  import opened Objects

  type Name = string

  /** A path from the root, name by name. */
  type Path = seq<Name>

  /** One entry of a tree; a commit among them is another repository's. */
  datatype Child = Child(oid: Oid, isTree: bool, isCommit: bool, name: Name)

  /** The trees a reader can supply. */
  type Store = map<Oid, seq<Child>>

  /** What stands at a path: a tree or a blob. */
  datatype Item = Item(isTree: bool, oid: Oid)

  ghost predicate UniqueNames(children: seq<Child>)
  {
    forall i, j :: 0 <= i < j < |children| ==> children[i].name != children[j].name
  }

  ghost predicate AllUnique(store: Store)
  {
    forall t :: t in store ==> UniqueNames(store[t])
  }

  /** What a tree's entries hold under a name, other repositories' commits aside. */
  function EntryAt(children: seq<Child>, name: Name): Option<Item>
  {
    if children == [] then None
    else if !children[0].isCommit && children[0].name == name then Some(Item(children[0].isTree, children[0].oid))
    else EntryAt(children[1..], name)
  }

  /** The tree an item is, to look further down in. */
  function Sub(item: Option<Item>): Option<Oid>
  {
    if item.Some? && item.value.isTree then Some(item.value.oid) else None
  }

  function ChildrenOf(store: Store, tree: Option<Oid>): seq<Child>
  {
    if tree.Some? && tree.value in store then store[tree.value] else []
  }

  /** What stands at a path below a tree: the whole content of the tree, flattened. */
  function Find(store: Store, tree: Option<Oid>, path: Path): Option<Item>
    decreases |path|
  {
    if path == [] then None
    else
      var item := EntryAt(ChildrenOf(store, tree), path[0]);
      if |path| == 1 then item else Find(store, Sub(item), path[1..])
  }

  // ---------------------------------------------------- what a diff should say

  datatype Change = Change(path: Path, isTree: bool, was: Option<Oid>, now: Oid)
  datatype Removal = Removal(path: Path, isTree: bool, was: Oid)

  /** A path the new tree has, differently. */
  ghost predicate Changes(o: Option<Item>, n: Option<Item>)
  {
    n.Some? && o != n
  }

  /** A path the new tree lost, or has as another type. */
  ghost predicate Removes(o: Option<Item>, n: Option<Item>)
  {
    o.Some? && (n.None? || n.value.isTree != o.value.isTree)
  }

  /** The version a change can delta against: what stood there, if of the same type. */
  function Predecessor(o: Option<Item>, n: Option<Item>): Option<Oid>
  {
    if o.Some? && n.Some? && o.value.isTree == n.value.isTree then Some(o.value.oid) else None
  }

  ghost predicate ChangeIs(c: Change, o: Option<Item>, n: Option<Item>)
  {
    Changes(o, n) && c.isTree == n.value.isTree && c.now == n.value.oid && c.was == Predecessor(o, n)
  }

  ghost predicate RemovalIs(r: Removal, o: Option<Item>, n: Option<Item>)
  {
    Removes(o, n) && r.isTree == o.value.isTree && r.was == o.value.oid
  }

  ghost predicate ChangedAt(changes: seq<Change>, path: Path)
  {
    exists k :: 0 <= k < |changes| && changes[k].path == path
  }

  ghost predicate RemovedAt(removals: seq<Removal>, path: Path)
  {
    exists k :: 0 <= k < |removals| && removals[k].path == path
  }

  ghost predicate OncePerChange(changes: seq<Change>)
  {
    forall i, j :: 0 <= i < j < |changes| ==> changes[i].path != changes[j].path
  }

  ghost predicate OncePerRemoval(removals: seq<Removal>)
  {
    forall i, j :: 0 <= i < j < |removals| ==> removals[i].path != removals[j].path
  }

  // ------------------------------------------------------------- one frame

  /** A subtree still to compare, and where it sits. */
  datatype Frame = Frame(prefix: Path, was: Option<Oid>, now: Option<Oid>)

  /** Whether the walk goes further down where `o` and `n` stand. */
  ghost predicate Descends(removals: bool, o: Option<Item>, n: Option<Item>)
  {
    Sub(o) != Sub(n) && (removals || Sub(n).Some?)
  }

  ghost predicate FramedAt(frames: seq<Frame>, path: Path)
  {
    exists k :: 0 <= k < |frames| && frames[k].prefix == path
  }

  ghost predicate OncePerFrame(frames: seq<Frame>)
  {
    forall i, j :: 0 <= i < j < |frames| ==> frames[i].prefix != frames[j].prefix
  }

  /** One level below `prefix`, at one of `names`. */
  ghost predicate Below(prefix: Path, names: set<Name>, path: Path)
  {
    |path| == |prefix| + 1 && path[..|prefix|] == prefix && path[|prefix|] in names
  }

  /** The part of a frame's answer that concerns `names`. */
  ghost predicate Compared(removing: bool, prefix: Path, oldE: seq<Child>, newE: seq<Child>, names: set<Name>,
                           changes: seq<Change>, removals: seq<Removal>, frames: seq<Frame>)
  {
    && OncePerChange(changes) && OncePerRemoval(removals) && OncePerFrame(frames)
    && (forall k :: 0 <= k < |changes| ==> ChangeFits(prefix, oldE, newE, names, changes[k]))
    && (forall k :: 0 <= k < |removals| ==> RemovalFits(removing, prefix, oldE, newE, names, removals[k]))
    && (forall k :: 0 <= k < |frames| ==> FrameIs(removing, prefix, oldE, newE, names, frames[k]))
    && (forall name :: name in names ==> Handled(removing, prefix, oldE, newE, name, changes, removals, frames))
  }

  ghost predicate ChangeFits(prefix: Path, oldE: seq<Child>, newE: seq<Child>, names: set<Name>, c: Change)
  {
    Below(prefix, names, c.path) && ChangeIs(c, EntryAt(oldE, c.path[|prefix|]), EntryAt(newE, c.path[|prefix|]))
  }

  ghost predicate RemovalFits(removing: bool, prefix: Path, oldE: seq<Child>, newE: seq<Child>, names: set<Name>,
                              r: Removal)
  {
    && removing && Below(prefix, names, r.path)
    && RemovalIs(r, EntryAt(oldE, r.path[|prefix|]), EntryAt(newE, r.path[|prefix|]))
  }

  ghost predicate FrameIs(removing: bool, prefix: Path, oldE: seq<Child>, newE: seq<Child>, names: set<Name>, f: Frame)
  {
    && Below(prefix, names, f.prefix)
    && Descends(removing, EntryAt(oldE, f.prefix[|prefix|]), EntryAt(newE, f.prefix[|prefix|]))
    && f.was == Sub(EntryAt(oldE, f.prefix[|prefix|])) && f.now == Sub(EntryAt(newE, f.prefix[|prefix|]))
  }

  ghost predicate Handled(removing: bool, prefix: Path, oldE: seq<Child>, newE: seq<Child>, name: Name,
                          changes: seq<Change>, removals: seq<Removal>, frames: seq<Frame>)
  {
    var o, n := EntryAt(oldE, name), EntryAt(newE, name);
    && (Changes(o, n) ==> ChangedAt(changes, prefix + [name]))
    && (removing && Removes(o, n) ==> RemovedAt(removals, prefix + [name]))
    && (Descends(removing, o, n) ==> FramedAt(frames, prefix + [name]))
  }

  lemma {:induction false} EntryIsAt(children: seq<Child>, i: nat)
    requires UniqueNames(children) && i < |children| && !children[i].isCommit
    ensures EntryAt(children, children[i].name) == Some(Item(children[i].isTree, children[i].oid))
  {
    if i > 0 {
      EntryIsAt(children[1..], i - 1);
      assert children[0].name != children[i].name;
    }
  }

  lemma {:induction false} EntryIsFrom(children: seq<Child>, name: Name) returns (i: nat)
    requires EntryAt(children, name).Some?
    ensures i < |children| && !children[i].isCommit && children[i].name == name
    ensures EntryAt(children, name).value == Item(children[i].isTree, children[i].oid)
  {
    if !children[0].isCommit && children[0].name == name {
      i := 0;
    } else {
      i := EntryIsFrom(children[1..], name);
      i := i + 1;
    }
  }

  /** What one name adds to a frame's answer. */
  function ChangeOf(prefix: Path, name: Name, o: Option<Item>, n: Option<Item>): seq<Change>
  {
    if n.Some? && o != n then [Change(prefix + [name], n.value.isTree, Predecessor(o, n), n.value.oid)] else []
  }

  function RemovalOf(removing: bool, prefix: Path, name: Name, o: Option<Item>, n: Option<Item>): seq<Removal>
  {
    if removing && o.Some? && (n.None? || n.value.isTree != o.value.isTree)
    then [Removal(prefix + [name], o.value.isTree, o.value.oid)] else []
  }

  function FrameOf(removing: bool, prefix: Path, name: Name, o: Option<Item>, n: Option<Item>): seq<Frame>
  {
    if Sub(o) != Sub(n) && (removing || Sub(n).Some?) then [Frame(prefix + [name], Sub(o), Sub(n))] else []
  }

  lemma BelowMore(prefix: Path, names: set<Name>, name: Name, path: Path)
    ensures Below(prefix, names, path) ==>
      Below(prefix, names + {name}, path) && (name !in names ==> path != prefix + [name])
    ensures Below(prefix, names + {name}, prefix + [name])
  {
    assert (prefix + [name])[..|prefix|] == prefix;
  }

  lemma BelowSize(prefix: Path, names: set<Name>, path: Path)
    requires Below(prefix, names, path)
    ensures |path| == |prefix| + 1 && path[|prefix|] in names && path == prefix + [path[|prefix|]]
  {
    assert path == path[..|prefix|] + [path[|prefix|]];
  }

  lemma ChangesMore(prefix: Path, oldE: seq<Child>, newE: seq<Child>, names: set<Name>, name: Name,
                    changes: seq<Change>)
    requires OncePerChange(changes) && name !in names
    requires forall k :: 0 <= k < |changes| ==> ChangeFits(prefix, oldE, newE, names, changes[k])
    ensures var more := changes + ChangeOf(prefix, name, EntryAt(oldE, name), EntryAt(newE, name));
      && OncePerChange(more)
      && forall k :: 0 <= k < |more| ==> ChangeFits(prefix, oldE, newE, names + {name}, more[k])
  {
    forall k | 0 <= k < |changes|
      ensures changes[k].path != prefix + [name] && ChangeFits(prefix, oldE, newE, names + {name}, changes[k])
    {
      BelowMore(prefix, names, name, changes[k].path);
    }
    BelowMore(prefix, names, name, prefix + [name]);
  }

  lemma RemovalsMore(removing: bool, prefix: Path, oldE: seq<Child>, newE: seq<Child>, names: set<Name>, name: Name,
                     removals: seq<Removal>)
    requires OncePerRemoval(removals) && name !in names
    requires forall k :: 0 <= k < |removals| ==> RemovalFits(removing, prefix, oldE, newE, names, removals[k])
    ensures var more := removals + RemovalOf(removing, prefix, name, EntryAt(oldE, name), EntryAt(newE, name));
      && OncePerRemoval(more)
      && forall k :: 0 <= k < |more| ==> RemovalFits(removing, prefix, oldE, newE, names + {name}, more[k])
  {
    forall k | 0 <= k < |removals|
      ensures removals[k].path != prefix + [name]
      ensures RemovalFits(removing, prefix, oldE, newE, names + {name}, removals[k])
    {
      BelowMore(prefix, names, name, removals[k].path);
    }
    BelowMore(prefix, names, name, prefix + [name]);
  }

  lemma FramesMore(removing: bool, prefix: Path, oldE: seq<Child>, newE: seq<Child>, names: set<Name>, name: Name,
                   frames: seq<Frame>)
    requires OncePerFrame(frames) && name !in names
    requires forall k :: 0 <= k < |frames| ==> FrameIs(removing, prefix, oldE, newE, names, frames[k])
    ensures var more := frames + FrameOf(removing, prefix, name, EntryAt(oldE, name), EntryAt(newE, name));
      && OncePerFrame(more)
      && forall k :: 0 <= k < |more| ==> FrameIs(removing, prefix, oldE, newE, names + {name}, more[k])
  {
    forall k | 0 <= k < |frames|
      ensures frames[k].prefix != prefix + [name] && FrameIs(removing, prefix, oldE, newE, names + {name}, frames[k])
    {
      BelowMore(prefix, names, name, frames[k].prefix);
    }
    BelowMore(prefix, names, name, prefix + [name]);
  }

  lemma HandledMore(removing: bool, prefix: Path, oldE: seq<Child>, newE: seq<Child>, name: Name,
                    changes: seq<Change>, removals: seq<Removal>, frames: seq<Frame>,
                    cs: seq<Change>, rs: seq<Removal>, fs: seq<Frame>)
    requires Handled(removing, prefix, oldE, newE, name, changes, removals, frames)
    ensures Handled(removing, prefix, oldE, newE, name, changes + cs, removals + rs, frames + fs)
  {
    var path := prefix + [name];
    if ChangedAt(changes, path) {
      var k :| 0 <= k < |changes| && changes[k].path == path;
      assert (changes + cs)[k].path == path;
    }
    if RemovedAt(removals, path) {
      var k :| 0 <= k < |removals| && removals[k].path == path;
      assert (removals + rs)[k].path == path;
    }
    if FramedAt(frames, path) {
      var k :| 0 <= k < |frames| && frames[k].prefix == path;
      assert (frames + fs)[k].prefix == path;
    }
  }

  /** Handling one more name. */
  lemma ComparedMore(removing: bool, prefix: Path, oldE: seq<Child>, newE: seq<Child>, names: set<Name>, name: Name,
                     changes: seq<Change>, removals: seq<Removal>, frames: seq<Frame>)
    requires Compared(removing, prefix, oldE, newE, names, changes, removals, frames) && name !in names
    ensures var o, n := EntryAt(oldE, name), EntryAt(newE, name);
      Compared(removing, prefix, oldE, newE, names + {name},
               changes + ChangeOf(prefix, name, o, n), removals + RemovalOf(removing, prefix, name, o, n),
               frames + FrameOf(removing, prefix, name, o, n))
  {
    hide FrameIs, Handled, ChangeFits, RemovalFits, ChangeOf, RemovalOf, FrameOf, EntryAt;
    var o, n := EntryAt(oldE, name), EntryAt(newE, name);
    var cs, rs := ChangeOf(prefix, name, o, n), RemovalOf(removing, prefix, name, o, n);
    var fs := FrameOf(removing, prefix, name, o, n);
    ChangesMore(prefix, oldE, newE, names, name, changes);
    RemovalsMore(removing, prefix, oldE, newE, names, name, removals);
    FramesMore(removing, prefix, oldE, newE, names, name, frames);
    forall other | other in names + {name}
      ensures Handled(removing, prefix, oldE, newE, other, changes + cs, removals + rs, frames + fs)
    {
      if other == name {
        HandledNow(removing, prefix, oldE, newE, name, changes, removals, frames);
      } else {
        HandledMore(removing, prefix, oldE, newE, other, changes, removals, frames, cs, rs, fs);
      }
    }
  }

  lemma HandledNow(removing: bool, prefix: Path, oldE: seq<Child>, newE: seq<Child>, name: Name,
                   changes: seq<Change>, removals: seq<Removal>, frames: seq<Frame>)
    ensures var o, n := EntryAt(oldE, name), EntryAt(newE, name);
      Handled(removing, prefix, oldE, newE, name,
              changes + ChangeOf(prefix, name, o, n), removals + RemovalOf(removing, prefix, name, o, n),
              frames + FrameOf(removing, prefix, name, o, n))
  {
    var o, n := EntryAt(oldE, name), EntryAt(newE, name);
    var cs, rs, fs := changes + ChangeOf(prefix, name, o, n), removals + RemovalOf(removing, prefix, name, o, n),
                      frames + FrameOf(removing, prefix, name, o, n);
    if Changes(o, n) {
      assert cs[|changes|].path == prefix + [name];
    }
    if removing && Removes(o, n) {
      assert rs[|removals|].path == prefix + [name];
    }
    if Descends(removing, o, n) {
      assert fs[|frames|].prefix == prefix + [name];
    }
  }

  /** Every name that matters is compared: all the new side has, and all the old has when removals are wanted. */
  ghost predicate Covers(removing: bool, oldE: seq<Child>, newE: seq<Child>, names: set<Name>)
  {
    && (forall name :: EntryAt(newE, name).Some? ==> name in names)
    && (removing ==> forall name :: EntryAt(oldE, name).Some? ==> name in names)
  }

  /** A frame's whole answer. */
  ghost predicate Answers(removing: bool, prefix: Path, oldE: seq<Child>, newE: seq<Child>,
                          changes: seq<Change>, removals: seq<Removal>, frames: seq<Frame>)
  {
    exists names ::
      && Covers(removing, oldE, newE, names)
      && Compared(removing, prefix, oldE, newE, names, changes, removals, frames)
  }

  /** Both sides' entries by name, and what each becomes. */
  method CompareFrame(removing: bool, prefix: Path, oldE: seq<Child>, newE: seq<Child>)
    returns (changes: seq<Change>, removals: seq<Removal>, frames: seq<Frame>)
    requires UniqueNames(oldE) && UniqueNames(newE)
    ensures Answers(removing, prefix, oldE, newE, changes, removals, frames)
  {
    hide Compared, EntryAt;
    changes, removals, frames := [], [], [];
    ghost var names: set<Name> := {};
    var previous := ByName(oldE);
    NothingCompared(removing, prefix, oldE, newE);
    var i := 0;
    while i < |newE|
      invariant i <= |newE|
      invariant Compared(removing, prefix, oldE, newE, names, changes, removals, frames)
      invariant forall name :: name in names <==> NamedIn(newE[..i], name)
      invariant forall name :: name !in names ==> (name in previous <==> EntryAt(oldE, name).Some?)
      invariant forall name :: name in previous ==> name !in names && EntryAt(oldE, name) == Some(previous[name])
    {
      assert newE[..i + 1] == newE[..i] + [newE[i]];
      if !newE[i].isCommit {
        var name := newE[i].name;
        EntryIsAt(newE, i);
        assert name !in names by { NotNamedYet(newE, i); }
        var n := Some(Item(newE[i].isTree, newE[i].oid));
        var o := if name in previous then Some(previous[name]) else None;
        ComparedMore(removing, prefix, oldE, newE, names, name, changes, removals, frames);
        previous := previous - {name};
        changes := changes + ChangeOf(prefix, name, o, n);
        removals := removals + RemovalOf(removing, prefix, name, o, n);
        frames := frames + FrameOf(removing, prefix, name, o, n);
        names := names + {name};
      }
      i := i + 1;
    }
    assert newE[..i] == newE;
    forall name ensures name in names <==> EntryAt(newE, name).Some? { NamedIsEntry(newE, name); }
    if removing {
      i := 0;
      while i < |oldE|
        invariant i <= |oldE|
        invariant Compared(removing, prefix, oldE, newE, names, changes, removals, frames)
        invariant forall name :: name in names <==> EntryAt(newE, name).Some? || NamedIn(oldE[..i], name)
        invariant forall name :: name in previous ==>
          EntryAt(newE, name).None? && EntryAt(oldE, name) == Some(previous[name])
        invariant forall name :: EntryAt(newE, name).None? && EntryAt(oldE, name).Some? ==> name in previous
      {
        assert oldE[..i + 1] == oldE[..i] + [oldE[i]];
        var name := oldE[i].name;
        if !oldE[i].isCommit && name in previous {
          var o := Some(previous[name]);
          NotNamedYet(oldE, i);
          ComparedMore(removing, prefix, oldE, newE, names, name, changes, removals, frames);
          assert ChangeOf(prefix, name, o, None) == [];
          changes := changes + [];
          removals := removals + RemovalOf(removing, prefix, name, o, None);
          frames := frames + FrameOf(removing, prefix, name, o, None);
          names := names + {name};
        } else if !oldE[i].isCommit {
          EntryIsAt(oldE, i);
        }
        i := i + 1;
      }
      assert oldE[..i] == oldE;
      forall name | EntryAt(oldE, name).Some? ensures name in names { NamedIsEntry(oldE, name); }
    }
    assert Covers(removing, oldE, newE, names);
  }

  ghost predicate NamedIn(children: seq<Child>, name: Name)
  {
    exists k :: 0 <= k < |children| && !children[k].isCommit && children[k].name == name
  }

  lemma NamedIsEntry(children: seq<Child>, name: Name)
    requires UniqueNames(children)
    ensures NamedIn(children, name) <==> EntryAt(children, name).Some?
  {
    if NamedIn(children, name) {
      var k :| 0 <= k < |children| && !children[k].isCommit && children[k].name == name;
      EntryIsAt(children, k);
    }
    if EntryAt(children, name).Some? {
      var k := EntryIsFrom(children, name);
    }
  }

  lemma NotNamedYet(children: seq<Child>, i: nat)
    requires UniqueNames(children) && i < |children|
    ensures !NamedIn(children[..i], children[i].name)
  {
  }

  lemma NothingCompared(removing: bool, prefix: Path, oldE: seq<Child>, newE: seq<Child>)
    ensures Compared(removing, prefix, oldE, newE, {}, [], [], [])
  {
  }

  /** A tree's entries by name, other repositories' commits aside. */
  method ByName(children: seq<Child>) returns (previous: map<Name, Item>)
    requires UniqueNames(children)
    ensures forall name :: name in previous <==> EntryAt(children, name).Some?
    ensures forall name :: name in previous ==> EntryAt(children, name) == Some(previous[name])
  {
    previous := map[];
    var i := 0;
    while i < |children|
      invariant i <= |children|
      invariant forall name :: name in previous <==> NamedIn(children[..i], name)
      invariant forall name :: name in previous ==> EntryAt(children, name) == Some(previous[name])
    {
      assert children[..i + 1] == children[..i] + [children[i]];
      if !children[i].isCommit {
        EntryIsAt(children, i);
        previous := previous[children[i].name := Item(children[i].isTree, children[i].oid)];
      }
      i := i + 1;
    }
    assert children[..i] == children;
    forall name ensures name in previous <==> EntryAt(children, name).Some? { NamedIsEntry(children, name); }
  }

  // ---------------------------------------------------------- the whole walk

  /** Strictly below. */
  ghost predicate Under(prefix: Path, path: Path)
  {
    |path| > |prefix| && path[..|prefix|] == prefix
  }

  ghost predicate Covered(open: set<Frame>, path: Path)
  {
    exists f :: f in open && Under(f.prefix, path)
  }

  /** A frame compares what the two roots hold below its prefix. */
  ghost predicate FrameTrue(full: Store, oldRoot: Option<Oid>, newRoot: Option<Oid>, f: Frame)
  {
    && (forall rest :: rest != [] ==> Stands(full, oldRoot, newRoot, f, rest))
    && (f.prefix == [] ==> f.was == oldRoot && f.now == newRoot)
    && (f.prefix != [] ==> f.was.Some? || f.now.Some?)
    && (f.prefix != [] && f.was.Some? ==> TreeAt(full, oldRoot, f.prefix, f.was.value))
    && (f.prefix != [] && f.now.Some? ==> TreeAt(full, newRoot, f.prefix, f.now.value))
  }

  ghost predicate Stands(full: Store, oldRoot: Option<Oid>, newRoot: Option<Oid>, f: Frame, rest: Path)
  {
    && Find(full, oldRoot, f.prefix + rest) == Find(full, f.was, rest)
    && Find(full, newRoot, f.prefix + rest) == Find(full, f.now, rest)
  }

  ghost predicate TreeAt(full: Store, root: Option<Oid>, path: Path, tree: Oid)
  {
    Find(full, root, path) == Some(Item(true, tree))
  }

  /** One of the roots, or a tree somewhere below one. */
  ghost predicate TreeOf(full: Store, oldRoot: Option<Oid>, newRoot: Option<Oid>, tree: Oid)
  {
    || oldRoot == Some(tree) || newRoot == Some(tree)
    || exists path :: TreeAt(full, oldRoot, path, tree) || TreeAt(full, newRoot, path, tree)
  }

  /** No path is below two frames. */
  ghost predicate Apart(open: set<Frame>)
  {
    forall f, g :: f in open && g in open && f != g ==> Diverge(f.prefix, g.prefix)
  }

  ghost predicate Diverge(p: Path, q: Path)
  {
    !(p <= q) && !(q <= p)
  }

  ghost predicate ChangeTrue(full: Store, oldRoot: Option<Oid>, newRoot: Option<Oid>, c: Change)
  {
    c.path != [] && ChangeIs(c, Find(full, oldRoot, c.path), Find(full, newRoot, c.path))
  }

  ghost predicate RemovalTrue(full: Store, oldRoot: Option<Oid>, newRoot: Option<Oid>, r: Removal)
  {
    r.path != [] && RemovalIs(r, Find(full, oldRoot, r.path), Find(full, newRoot, r.path))
  }

  /** Everything reported is true, and reported once. */
  ghost predicate Truthful(full: Store, oldRoot: Option<Oid>, newRoot: Option<Oid>, removing: bool,
                           changes: seq<Change>, removals: seq<Removal>)
  {
    && OncePerChange(changes) && OncePerRemoval(removals)
    && (forall k :: 0 <= k < |changes| ==> ChangeTrue(full, oldRoot, newRoot, changes[k]))
    && (removals == [] || removing)
    && (forall k :: 0 <= k < |removals| ==> RemovalTrue(full, oldRoot, newRoot, removals[k]))
  }

  /** Nothing reported lies below an open frame. */
  ghost predicate Outside(open: set<Frame>, changes: seq<Change>, removals: seq<Removal>)
  {
    && (forall k :: 0 <= k < |changes| ==> !Covered(open, changes[k].path))
    && (forall k :: 0 <= k < |removals| ==> !Covered(open, removals[k].path))
  }

  /** Every difference is reported, or lies below an open frame. */
  ghost predicate Accounted(full: Store, oldRoot: Option<Oid>, newRoot: Option<Oid>, removing: bool, open: set<Frame>,
                            changes: seq<Change>, removals: seq<Removal>)
  {
    forall path :: path != [] ==>
      PathAccounted(full, oldRoot, newRoot, removing, open, changes, removals, path)
  }

  ghost predicate PathAccounted(full: Store, oldRoot: Option<Oid>, newRoot: Option<Oid>, removing: bool,
                                open: set<Frame>, changes: seq<Change>, removals: seq<Removal>, path: Path)
  {
    var o, n := Find(full, oldRoot, path), Find(full, newRoot, path);
    && (Changes(o, n) ==> ChangedAt(changes, path) || Covered(open, path))
    && (removing && Removes(o, n) ==> RemovedAt(removals, path) || Covered(open, path))
  }

  /** What every step of the walk keeps. */
  ghost predicate Diffing(full: Store, oldRoot: Option<Oid>, newRoot: Option<Oid>, removing: bool, open: set<Frame>,
                          changes: seq<Change>, removals: seq<Removal>)
  {
    && (forall f :: f in open ==> FrameTrue(full, oldRoot, newRoot, f))
    && Apart(open)
    && Truthful(full, oldRoot, newRoot, removing, changes, removals)
    && Outside(open, changes, removals)
    && Accounted(full, oldRoot, newRoot, removing, open, changes, removals)
  }

  // --------------------------------------------------------- one frame's step

  ghost function FrameSet(frames: seq<Frame>): set<Frame>
  {
    set f | f in frames
  }

  /** A path below a frame is one name down, or further below that name. */
  lemma FindBelow(full: Store, oldRoot: Option<Oid>, newRoot: Option<Oid>, f: Frame, path: Path)
    requires FrameTrue(full, oldRoot, newRoot, f) && Under(f.prefix, path)
    ensures var name, rest := path[|f.prefix|], path[|f.prefix| + 1..];
      var o, n := EntryAt(ChildrenOf(full, f.was), name), EntryAt(ChildrenOf(full, f.now), name);
      && path == f.prefix + [name] + rest
      && Find(full, oldRoot, path) == (if rest == [] then o else Find(full, Sub(o), rest))
      && Find(full, newRoot, path) == (if rest == [] then n else Find(full, Sub(n), rest))
  {
    hide EntryAt;
    var rest := path[|f.prefix|..];
    assert path == f.prefix + rest;
    assert Stands(full, oldRoot, newRoot, f, rest);
    assert rest[0] == path[|f.prefix|];
    assert |rest| > 1 ==> rest[1..] == path[|f.prefix| + 1..];
  }

  lemma NothingBelow(full: Store, rest: Path)
    ensures Find(full, None, rest) == None
    decreases |rest|
  {
    if |rest| > 1 {
      assert EntryAt([], rest[0]) == None;
      NothingBelow(full, rest[1..]);
    }
  }

  /** A new frame compares what the roots hold below it. */
  lemma NewFrameTrue(full: Store, oldRoot: Option<Oid>, newRoot: Option<Oid>, removing: bool, f: Frame,
                     names: set<Name>, g: Frame)
    requires FrameTrue(full, oldRoot, newRoot, f)
    requires FrameIs(removing, f.prefix, ChildrenOf(full, f.was), ChildrenOf(full, f.now), names, g)
    ensures FrameTrue(full, oldRoot, newRoot, g)
  {
    hide EntryAt;
    BelowSize(f.prefix, names, g.prefix);
    var name := g.prefix[|f.prefix|];
    forall rest | rest != [] ensures Stands(full, oldRoot, newRoot, g, rest) {
      var path := g.prefix + rest;
      assert path[..|f.prefix|] == f.prefix;
      FindBelow(full, oldRoot, newRoot, f, path);
      assert path[|f.prefix| + 1..] == rest;
    }
    FindBelow(full, oldRoot, newRoot, f, g.prefix);
  }

  lemma BelowUnder(prefix: Path, names: set<Name>, path: Path, further: Path)
    requires Below(prefix, names, path) && path <= further
    ensures Under(prefix, further)
  {
    assert further[..|prefix|] == path[..|prefix|];
  }

  /** Frames one name down from the same prefix diverge, and so do they from any other. */
  lemma ApartStep(removing: bool, oldE: seq<Child>, newE: seq<Child>, names: set<Name>, open: set<Frame>, f: Frame,
                  frames: seq<Frame>)
    requires Apart(open) && f in open && OncePerFrame(frames)
    requires forall k :: 0 <= k < |frames| ==> FrameIs(removing, f.prefix, oldE, newE, names, frames[k])
    ensures Apart(open - {f} + FrameSet(frames))
  {
    hide Descends, EntryAt;
    var after := open - {f} + FrameSet(frames);
    forall g, h | g in after && h in after && g != h ensures Diverge(g.prefix, h.prefix) {
      if g in frames && h in frames {
        var i :| 0 <= i < |frames| && frames[i] == g;
        var j :| 0 <= j < |frames| && frames[j] == h;
        assert g.prefix != h.prefix;
      } else if g in frames {
        assert Diverge(f.prefix, h.prefix);
        DivergeDown(f.prefix, names, g.prefix, h.prefix);
      } else if h in frames {
        assert Diverge(f.prefix, g.prefix);
        DivergeDown(f.prefix, names, h.prefix, g.prefix);
      }
    }
  }

  lemma DivergeDown(prefix: Path, names: set<Name>, path: Path, other: Path)
    requires Below(prefix, names, path) && Diverge(prefix, other)
    ensures Diverge(path, other)
  {
    BelowSize(prefix, names, path);
    assert prefix <= path;
    assert path <= other ==> prefix <= other;
    assert other <= path ==> other <= prefix || prefix <= other;
  }

  /** New reports are true, and about paths not reported before. */
  lemma TruthfulStep(full: Store, oldRoot: Option<Oid>, newRoot: Option<Oid>, removing: bool, open: set<Frame>,
                     f: Frame, names: set<Name>, changes: seq<Change>, removals: seq<Removal>, cs: seq<Change>,
                     rs: seq<Removal>)
    requires FrameTrue(full, oldRoot, newRoot, f) && f in open
    requires Truthful(full, oldRoot, newRoot, removing, changes, removals) && Outside(open, changes, removals)
    requires OncePerChange(cs) && OncePerRemoval(rs)
    requires forall k :: 0 <= k < |cs| ==>
      ChangeFits(f.prefix, ChildrenOf(full, f.was), ChildrenOf(full, f.now), names, cs[k])
    requires forall k :: 0 <= k < |rs| ==>
      RemovalFits(removing, f.prefix, ChildrenOf(full, f.was), ChildrenOf(full, f.now), names, rs[k])
    ensures Truthful(full, oldRoot, newRoot, removing, changes + cs, removals + rs)
  {
    hide Find, EntryAt, FrameTrue, ChangeIs, RemovalIs;
    forall k | 0 <= k < |cs| ensures Under(f.prefix, cs[k].path) && ChangeTrue(full, oldRoot, newRoot, cs[k]) {
      BelowSize(f.prefix, names, cs[k].path);
      FindBelow(full, oldRoot, newRoot, f, cs[k].path);
    }
    forall k | 0 <= k < |rs| ensures Under(f.prefix, rs[k].path) && RemovalTrue(full, oldRoot, newRoot, rs[k]) {
      BelowSize(f.prefix, names, rs[k].path);
      FindBelow(full, oldRoot, newRoot, f, rs[k].path);
    }
    forall i, j | 0 <= i < j < |changes + cs| ensures (changes + cs)[i].path != (changes + cs)[j].path {
      if i < |changes| <= j {
        assert !Covered(open, changes[i].path) && Under(f.prefix, cs[j - |changes|].path);
      }
    }
    forall i, j | 0 <= i < j < |removals + rs| ensures (removals + rs)[i].path != (removals + rs)[j].path {
      if i < |removals| <= j {
        assert !Covered(open, removals[i].path) && Under(f.prefix, rs[j - |removals|].path);
      }
    }
    assert rs == [] || RemovalFits(removing, f.prefix, ChildrenOf(full, f.was), ChildrenOf(full, f.now), names, rs[0]);
  }

  /** A path one below a frame is below no other frame, nor below those that replace it. */
  lemma ClearOf(removing: bool, oldE: seq<Child>, newE: seq<Child>, names: set<Name>, open: set<Frame>, f: Frame,
                frames: seq<Frame>, path: Path)
    requires Apart(open) && f in open
    requires forall k :: 0 <= k < |frames| ==> FrameIs(removing, f.prefix, oldE, newE, names, frames[k])
    requires !Covered(open, path) || Below(f.prefix, names, path)
    ensures !Covered(open - {f} + FrameSet(frames), path)
  {
    hide Descends, EntryAt;
    forall g | g in open - {f} + FrameSet(frames) ensures !Under(g.prefix, path) {
      if g in frames {
        var k :| 0 <= k < |frames| && frames[k] == g;
        BelowSize(f.prefix, names, g.prefix);
        if Under(g.prefix, path) {
          BelowUnder(f.prefix, names, g.prefix, path);
        }
      } else if Below(f.prefix, names, path) {
        BelowSize(f.prefix, names, path);
        assert Diverge(f.prefix, g.prefix);
        assert Under(g.prefix, path) ==> g.prefix <= f.prefix;
      }
    }
  }

  lemma OutsideStep(removing: bool, oldE: seq<Child>, newE: seq<Child>, names: set<Name>, open: set<Frame>, f: Frame,
                    frames: seq<Frame>, changes: seq<Change>, removals: seq<Removal>, cs: seq<Change>, rs: seq<Removal>)
    requires Apart(open) && f in open && Outside(open, changes, removals)
    requires forall k :: 0 <= k < |frames| ==> FrameIs(removing, f.prefix, oldE, newE, names, frames[k])
    requires forall k :: 0 <= k < |cs| ==> Below(f.prefix, names, cs[k].path)
    requires forall k :: 0 <= k < |rs| ==> Below(f.prefix, names, rs[k].path)
    ensures Outside(open - {f} + FrameSet(frames), changes + cs, removals + rs)
  {
    hide Apart, FrameIs, Below, Covered;
    forall k | 0 <= k < |changes + cs| ensures !Covered(open - {f} + FrameSet(frames), (changes + cs)[k].path) {
      ClearOf(removing, oldE, newE, names, open, f, frames, (changes + cs)[k].path);
    }
    forall k | 0 <= k < |removals + rs| ensures !Covered(open - {f} + FrameSet(frames), (removals + rs)[k].path) {
      ClearOf(removing, oldE, newE, names, open, f, frames, (removals + rs)[k].path);
    }
  }

  lemma ReportedStays(changes: seq<Change>, cs: seq<Change>, removals: seq<Removal>, rs: seq<Removal>, path: Path)
    ensures ChangedAt(changes, path) || ChangedAt(cs, path) ==> ChangedAt(changes + cs, path)
    ensures RemovedAt(removals, path) || RemovedAt(rs, path) ==> RemovedAt(removals + rs, path)
  {
    if ChangedAt(changes, path) {
      var k :| 0 <= k < |changes| && changes[k].path == path;
      assert (changes + cs)[k].path == path;
    }
    if ChangedAt(cs, path) {
      var k :| 0 <= k < |cs| && cs[k].path == path;
      assert (changes + cs)[|changes| + k].path == path;
    }
    if RemovedAt(removals, path) {
      var k :| 0 <= k < |removals| && removals[k].path == path;
      assert (removals + rs)[k].path == path;
    }
    if RemovedAt(rs, path) {
      var k :| 0 <= k < |rs| && rs[k].path == path;
      assert (removals + rs)[|removals| + k].path == path;
    }
  }

  /** A difference below the frame is now reported, or below a frame that replaces it. */
  lemma BelowIsAccounted(full: Store, oldRoot: Option<Oid>, newRoot: Option<Oid>, removing: bool, open: set<Frame>,
                         f: Frame, names: set<Name>, cs: seq<Change>, rs: seq<Removal>, frames: seq<Frame>, path: Path)
    requires FrameTrue(full, oldRoot, newRoot, f) && Under(f.prefix, path)
    requires forall name :: name in names ==>
      Handled(removing, f.prefix, ChildrenOf(full, f.was), ChildrenOf(full, f.now), name, cs, rs, frames)
    requires forall name :: EntryAt(ChildrenOf(full, f.now), name).Some? ==> name in names
    requires removing ==> forall name :: EntryAt(ChildrenOf(full, f.was), name).Some? ==> name in names
    ensures PathAccounted(full, oldRoot, newRoot, removing, open - {f} + FrameSet(frames), cs, rs, path)
  {
    hide EntryAt, FrameTrue;
    var name, rest := path[|f.prefix|], path[|f.prefix| + 1..];
    var o, n := EntryAt(ChildrenOf(full, f.was), name), EntryAt(ChildrenOf(full, f.now), name);
    FindBelow(full, oldRoot, newRoot, f, path);
    if rest == [] {
      assert path == f.prefix + [name];
    } else {
      NothingBelow(full, rest);
      if Sub(o) != Sub(n) && (removing || Sub(n).Some?) {
        assert name in names;
        var k :| 0 <= k < |frames| && frames[k].prefix == f.prefix + [name];
        assert frames[k] in FrameSet(frames);
        assert path[..|f.prefix| + 1] == f.prefix + [name];
        assert Under(frames[k].prefix, path);
      }
    }
  }

  /** Comparing one open frame keeps the walk's invariant over what replaces it. */
  lemma FrameStep(full: Store, oldRoot: Option<Oid>, newRoot: Option<Oid>, removing: bool, open: set<Frame>, f: Frame,
                  names: set<Name>, changes: seq<Change>, removals: seq<Removal>,
                  cs: seq<Change>, rs: seq<Removal>, frames: seq<Frame>)
    requires Diffing(full, oldRoot, newRoot, removing, open, changes, removals) && f in open
    requires Compared(removing, f.prefix, ChildrenOf(full, f.was), ChildrenOf(full, f.now), names, cs, rs, frames)
    requires Covers(removing, ChildrenOf(full, f.was), ChildrenOf(full, f.now), names)
    ensures Diffing(full, oldRoot, newRoot, removing, open - {f} + FrameSet(frames), changes + cs, removals + rs)
  {
    hide EntryAt, FrameTrue, FrameIs, Handled, PathAccounted, Below, ChangeIs, RemovalIs, Apart, Truthful, Outside;
    hide OncePerChange,
      OncePerRemoval, OncePerFrame;
    var oldE, newE := ChildrenOf(full, f.was), ChildrenOf(full, f.now);
    var after := open - {f} + FrameSet(frames);
    forall g | g in after ensures FrameTrue(full, oldRoot, newRoot, g) {
      if g in frames {
        var k :| 0 <= k < |frames| && frames[k] == g;
        NewFrameTrue(full, oldRoot, newRoot, removing, f, names, g);
      }
    }
    ApartStep(removing, oldE, newE, names, open, f, frames);
    TruthfulStep(full, oldRoot, newRoot, removing, open, f, names, changes, removals, cs, rs);
    OutsideStep(removing, oldE, newE, names, open, f, frames, changes, removals, cs, rs);
    forall path | path != []
      ensures PathAccounted(full, oldRoot, newRoot, removing, after, changes + cs, removals + rs, path)
    {
      PathStep(full, oldRoot, newRoot, removing, open, f, names, changes, removals, cs, rs, frames, path);
    }
  }

  lemma PathStep(full: Store, oldRoot: Option<Oid>, newRoot: Option<Oid>, removing: bool, open: set<Frame>, f: Frame,
                 names: set<Name>, changes: seq<Change>, removals: seq<Removal>,
                 cs: seq<Change>, rs: seq<Removal>, frames: seq<Frame>, path: Path)
    requires FrameTrue(full, oldRoot, newRoot, f) && f in open
    requires PathAccounted(full, oldRoot, newRoot, removing, open, changes, removals, path)
    requires forall name :: name in names ==>
      Handled(removing, f.prefix, ChildrenOf(full, f.was), ChildrenOf(full, f.now), name, cs, rs, frames)
    requires forall name :: EntryAt(ChildrenOf(full, f.now), name).Some? ==> name in names
    requires removing ==> forall name :: EntryAt(ChildrenOf(full, f.was), name).Some? ==> name in names
    ensures PathAccounted(full, oldRoot, newRoot, removing, open - {f} + FrameSet(frames), changes + cs,
                          removals + rs, path)
  {
    hide EntryAt, FrameTrue, Handled, Find, Under, ChangedAt, RemovedAt;
    ReportedStays(changes, cs, removals, rs, path);
    if Under(f.prefix, path) {
      BelowIsAccounted(full, oldRoot, newRoot, removing, open, f, names, cs, rs, frames, path);
    } else if Covered(open, path) {
      var g :| g in open && Under(g.prefix, path);
      assert g in open - {f} + FrameSet(frames);
    }
  }

  // ------------------------------------------------------------- termination

  /** Trees are content-addressed, so no tree is inside itself. */
  ghost predicate Ranked(store: Store, rank: Oid -> nat)
  {
    forall t, k :: t in store && 0 <= k < |store[t]| && store[t][k].isTree ==> rank(store[t][k].oid) < rank(t)
  }

  /** The paths of the trees at and below a tree. */
  ghost function Dirs(store: Store, rank: Oid -> nat, tree: Oid): set<Path>
    requires Ranked(store, rank)
    decreases rank(tree), 1, 0
  {
    {[]} + if tree in store then DirsAmong(store, rank, tree, |store[tree]|) else {}
  }

  ghost function DirsAmong(store: Store, rank: Oid -> nat, tree: Oid, n: nat): set<Path>
    requires Ranked(store, rank) && tree in store && n <= |store[tree]|
    decreases rank(tree), 0, n
  {
    if n == 0 then {}
    else
      var c := store[tree][n - 1];
      DirsAmong(store, rank, tree, n - 1)
      + if c.isTree then Prefixed(c.name, Dirs(store, rank, c.oid)) else {}
  }

  ghost function Prefixed(name: Name, paths: set<Path>): set<Path>
  {
    set p | p in paths :: [name] + p
  }

  lemma {:induction false} DirsHave(store: Store, rank: Oid -> nat, tree: Oid, k: nat, n: nat, p: Path)
    requires Ranked(store, rank) && tree in store && k < n <= |store[tree]| && store[tree][k].isTree
    requires p in Dirs(store, rank, store[tree][k].oid)
    ensures [store[tree][k].name] + p in DirsAmong(store, rank, tree, n)
    decreases n
  {
    hide Dirs;
    if k == n - 1 {
      assert [store[tree][k].name] + p in Prefixed(store[tree][k].name, Dirs(store, rank, store[tree][k].oid));
    } else {
      DirsHave(store, rank, tree, k, n - 1, p);
    }
  }

  lemma {:induction false} TreeIsDir(store: Store, rank: Oid -> nat, tree: Oid, path: Path)
    requires Ranked(store, rank) && Find(store, Some(tree), path).Some? && Find(store, Some(tree), path).value.isTree
    ensures path in Dirs(store, rank, tree)
    decreases |path|
  {
    hide DirsAmong;
    var children := ChildrenOf(store, Some(tree));
    assert EntryAt(children, path[0]).Some? by {
      if |path| > 1 && EntryAt(children, path[0]).None? {
        NothingBelow(store, path[1..]);
      }
    }
    assert EntryAt([], path[0]) == None;
    var k := EntryIsFrom(children, path[0]);
    var c := children[k];
    var rest := path[1..];
    assert path == [path[0]] + rest;
    if |path| == 1 {
      assert rest == [];
    } else {
      if !c.isTree {
        NothingBelow(store, rest);
      }
      TreeIsDir(store, rank, c.oid, rest);
    }
    DirsHave(store, rank, tree, k, |store[tree]|, rest);
  }

  // ---------------------------------------------------------------- the diff

  datatype Diff = Diff(changes: seq<Change>, removals: seq<Removal>, unreadable: seq<Oid>)

  /** The reader supplies trees as they are. */
  ghost predicate Extends(store: Store, full: Store)
  {
    forall t :: t in store ==> t in full && full[t] == store[t]
  }

  /** Exactly the differences, each with its right predecessor. */
  ghost predicate Exact(full: Store, oldRoot: Option<Oid>, newRoot: Option<Oid>, removing: bool, d: Diff)
  {
    && Truthful(full, oldRoot, newRoot, removing, d.changes, d.removals)
    && forall path :: path != [] ==>
         && (ChangedAt(d.changes, path) <==> Changes(Find(full, oldRoot, path), Find(full, newRoot, path)))
         && (RemovedAt(d.removals, path) <==> removing && Removes(Find(full, oldRoot, path), Find(full, newRoot, path)))
  }

  /** A tree on one side of the frame is not to be had, and the answer names each such tree. */
  ghost predicate Withheld(store: Store, unreadable: seq<Oid>, f: Frame)
  {
    && ((f.was.Some? && f.was.value !in store) || (f.now.Some? && f.now.value !in store))
    && (f.was.Some? && f.was.value !in store ==> f.was.value in unreadable)
    && (f.now.Some? && f.now.value !in store ==> f.now.value in unreadable)
  }

  /** The path lies beneath a tree the answer names as unreadable. */
  ghost predicate Hidden(store: Store, full: Store, oldRoot: Option<Oid>, newRoot: Option<Oid>,
                         unreadable: seq<Oid>, path: Path)
  {
    exists f: Frame ::
      && Under(f.prefix, path)
      && FrameTrue(full, oldRoot, newRoot, f)
      && Withheld(store, unreadable, f)
  }

  /** The path is reported exactly as the two trees have it. */
  ghost predicate Told(full: Store, oldRoot: Option<Oid>, newRoot: Option<Oid>, removing: bool, d: Diff, path: Path)
  {
    && (ChangedAt(d.changes, path) <==> Changes(Find(full, oldRoot, path), Find(full, newRoot, path)))
    && (RemovedAt(d.removals, path) <==> removing && Removes(Find(full, oldRoot, path), Find(full, newRoot, path)))
  }

  lemma OutsideIsTold(store: Store, full: Store, oldRoot: Option<Oid>, newRoot: Option<Oid>, removing: bool,
                      open: set<Frame>, d: Diff, path: Path)
    requires Diffing(full, oldRoot, newRoot, removing, open, d.changes, d.removals) && path != []
    requires forall f :: f in open ==> Withheld(store, d.unreadable, f)
    requires !Hidden(store, full, oldRoot, newRoot, d.unreadable, path)
    ensures Told(full, oldRoot, newRoot, removing, d, path)
  {
    hide Find;
    assert PathAccounted(full, oldRoot, newRoot, removing, open, d.changes, d.removals, path);
    assert !Covered(open, path) by {
      forall f | f in open ensures !Under(f.prefix, path) {
        assert FrameTrue(full, oldRoot, newRoot, f) && Withheld(store, d.unreadable, f);
      }
    }
    if ChangedAt(d.changes, path) {
      var k :| 0 <= k < |d.changes| && d.changes[k].path == path;
      assert ChangeTrue(full, oldRoot, newRoot, d.changes[k]);
    }
    if RemovedAt(d.removals, path) {
      var k :| 0 <= k < |d.removals| && d.removals[k].path == path;
      assert RemovalTrue(full, oldRoot, newRoot, d.removals[k]);
    }
  }

  lemma ExactIsTold(full: Store, oldRoot: Option<Oid>, newRoot: Option<Oid>, removing: bool, d: Diff, path: Path)
    requires Exact(full, oldRoot, newRoot, removing, d) && path != []
    ensures Told(full, oldRoot, newRoot, removing, d, path)
  {
    hide Find, ChangedAt, RemovedAt;
  }

  lemma DoneIsExact(full: Store, oldRoot: Option<Oid>, newRoot: Option<Oid>, removing: bool,
                    changes: seq<Change>, removals: seq<Removal>, unreadable: seq<Oid>)
    requires Diffing(full, oldRoot, newRoot, removing, {}, changes, removals)
    ensures Exact(full, oldRoot, newRoot, removing, Diff(changes, removals, unreadable))
  {
    hide Find;
    forall path | path != []
      ensures ChangedAt(changes, path) <==> Changes(Find(full, oldRoot, path), Find(full, newRoot, path))
      ensures RemovedAt(removals, path) <==> removing && Removes(Find(full, oldRoot, path), Find(full, newRoot, path))
    {
      assert PathAccounted(full, oldRoot, newRoot, removing, {}, changes, removals, path);
      assert !Covered({}, path);
      if ChangedAt(changes, path) {
        var k :| 0 <= k < |changes| && changes[k].path == path;
        assert ChangeTrue(full, oldRoot, newRoot, changes[k]);
      }
      if RemovedAt(removals, path) {
        var k :| 0 <= k < |removals| && removals[k].path == path;
        assert RemovalTrue(full, oldRoot, newRoot, removals[k]);
      }
    }
  }

  /** The walk at its start: one frame, over the two roots. */
  lemma DiffingStart(full: Store, oldRoot: Option<Oid>, newRoot: Option<Oid>, removing: bool)
    ensures Diffing(full, oldRoot, newRoot, removing, {Frame([], oldRoot, newRoot)}, [], [])
  {
    hide Find;
    var f := Frame([], oldRoot, newRoot);
    forall rest: Path | rest != [] ensures Stands(full, oldRoot, newRoot, f, rest) {
      assert [] + rest == rest;
    }
    forall path: Path | path != [] ensures Covered({f}, path) {
      assert path[..0] == [];
      assert Under(f.prefix, path);
    }
  }

  /** Reads both sides of a frame, or names what is missing. */
  method ReadFrame(store: Store, f: Frame) returns (read: Option<(seq<Child>, seq<Child>)>, missing: seq<Oid>)
    ensures read.Some? <==> missing == []
    ensures forall o :: o in missing ==> o !in store && (f.was == Some(o) || f.now == Some(o))
    ensures read.None? ==> Withheld(store, missing, f)
    ensures read.Some? ==> read.value == (ChildrenOf(store, f.was), ChildrenOf(store, f.now))
    ensures read.Some? ==> (f.was.Some? ==> f.was.value in store) && (f.now.Some? ==> f.now.value in store)
  {
    missing := [];
    if f.was.Some? && f.was.value !in store {
      missing := missing + [f.was.value];
    }
    if f.now.Some? && f.now.value !in store {
      missing := missing + [f.now.value];
    }
    read := if missing == [] then Some((ChildrenOf(store, f.was), ChildrenOf(store, f.now))) else None;
  }

  /** Each name once, at its first place. */
  method Dedup(oids: seq<Oid>) returns (out: seq<Oid>)
    ensures forall i, j :: 0 <= i < j < |out| ==> out[i] != out[j]
    ensures forall o :: o in out <==> o in oids
    ensures out == [] ==> oids == []
  {
    out := [];
    var i := 0;
    while i < |oids|
      invariant i <= |oids|
      invariant forall i, j :: 0 <= i < j < |out| ==> out[i] != out[j]
      invariant forall o :: o in out <==> o in oids[..i]
      invariant out == [] ==> i == 0
    {
      assert oids[..i + 1] == oids[..i] + [oids[i]];
      if oids[i] !in out {
        out := out + [oids[i]];
      }
      i := i + 1;
    }
    assert oids[..i] == oids;
  }

  /** What the stack keeps: the frames on it and those skipped are the open ones,
      and none leads back to a prefix already walked. */
  ghost predicate Stacked(stack: seq<Frame>, skipped: set<Frame>, open: set<Frame>, visited: set<Path>)
  {
    && OncePerFrame(stack)
    && open == FrameSet(stack) + skipped
    && FrameSet(stack) !! skipped
    && forall f, v :: f in FrameSet(stack) && v in visited ==> !(f.prefix <= v)
  }

  lemma PopSkips(stack: seq<Frame>, skipped: set<Frame>, open: set<Frame>, visited: set<Path>)
    requires |stack| > 0 && Stacked(stack, skipped, open, visited) && Apart(open)
    ensures var f := stack[|stack| - 1];
      f in open && f.prefix !in visited && Stacked(stack[..|stack| - 1], skipped + {f}, open, visited + {f.prefix})
  {
    var last := |stack| - 1;
    var f := stack[last];
    assert f in FrameSet(stack) && f.prefix <= f.prefix;
    assert FrameSet(stack) == FrameSet(stack[..last]) + {f} by { assert stack == stack[..last] + [f]; }
    assert f !in FrameSet(stack[..last]) by {
      assert forall k :: 0 <= k < last ==> stack[..last][k].prefix != f.prefix;
    }
    forall g | g in FrameSet(stack[..last]) ensures !(g.prefix <= f.prefix) {
      assert Diverge(g.prefix, f.prefix);
    }
  }

  lemma PopReplaces(removing: bool, oldE: seq<Child>, newE: seq<Child>, names: set<Name>, frames: seq<Frame>,
                    stack: seq<Frame>, skipped: set<Frame>, open: set<Frame>, visited: set<Path>)
    requires |stack| > 0 && Stacked(stack, skipped, open, visited) && Apart(open) && OncePerFrame(frames)
    requires forall k :: 0 <= k < |frames| ==>
      FrameIs(removing, stack[|stack| - 1].prefix, oldE, newE, names, frames[k])
    requires Apart(open - {stack[|stack| - 1]} + FrameSet(frames))
    ensures var f := stack[|stack| - 1];
      Stacked(stack[..|stack| - 1] + frames, skipped, open - {f} + FrameSet(frames), visited + {f.prefix})
  {
    hide Descends, EntryAt;
    var f, rest := stack[|stack| - 1], stack[..|stack| - 1];
    PopSkips(stack, skipped, open, visited);
    var after := rest + frames;
    assert FrameSet(after) == FrameSet(rest) + FrameSet(frames);
    forall g | g in FrameSet(frames)
      ensures f.prefix <= g.prefix && g.prefix != f.prefix && g !in open
    {
      var k :| 0 <= k < |frames| && frames[k] == g;
      BelowSize(f.prefix, names, g.prefix);
      assert g in open ==> Diverge(f.prefix, g.prefix);
    }
    forall g, v | g in FrameSet(after) && v in visited + {f.prefix} ensures !(g.prefix <= v) {
      if g in FrameSet(frames) {
        assert g.prefix <= v ==> f.prefix <= v;
      }
    }
    forall i, j | 0 <= i < j < |after| ensures after[i].prefix != after[j].prefix {
      if i < |rest| <= j {
        assert after[i] in FrameSet(rest) && after[j] in FrameSet(frames);
        assert Diverge(after[i].prefix, after[j].prefix);
      }
    }
  }

  /** The name-keyed recursive diff.

      Whatever the reader lacks, everything reported is true of the trees it reads
      from; and when nothing was unreadable it is the whole difference: equal
      subtrees are pruned without loss. It ends because every frame is a tree of
      one of the roots, met once.
  */
  method DiffTrees(store: Store, oldRoot: Option<Oid>, newRoot: Oid, removing: bool, ghost full: Store,
                   ghost rank: Oid -> nat)
    returns (d: Diff)
    requires Extends(store, full) && AllUnique(full) && Ranked(full, rank)
    ensures Truthful(full, oldRoot, Some(newRoot), removing, d.changes, d.removals)
    ensures d.unreadable == [] ==> Exact(full, oldRoot, Some(newRoot), removing, d)
    ensures forall path :: path != [] && !Hidden(store, full, oldRoot, Some(newRoot), d.unreadable, path) ==>
      Told(full, oldRoot, Some(newRoot), removing, d, path)
    ensures forall o :: o in d.unreadable ==> o !in store && TreeOf(full, oldRoot, Some(newRoot), o)
    ensures forall i, j :: 0 <= i < j < |d.unreadable| ==> d.unreadable[i] != d.unreadable[j]
  {
    hide *;
    if oldRoot == Some(newRoot) {
      SameRoot(full, newRoot, removing);
      d := Diff([], [], []);
      forall path | path != [] ensures Told(full, oldRoot, Some(newRoot), removing, d, path) {
        ExactIsTold(full, oldRoot, Some(newRoot), removing, d, path);
      }
      return;
    }
    var stack := [Frame([], oldRoot, Some(newRoot))];
    var changes: seq<Change> := [];
    var removals: seq<Removal> := [];
    var missing: seq<Oid> := [];
    ghost var open, skipped, visited := {Frame([], oldRoot, Some(newRoot))}, {}, {};
    ghost var all := Universe(full, rank, oldRoot, newRoot);
    DiffingStart(full, oldRoot, Some(newRoot), removing);
    StackStart(stack[0]);
    while stack != []
      invariant Diffing(full, oldRoot, Some(newRoot), removing, open, changes, removals)
      invariant Stacked(stack, skipped, open, visited)
      invariant missing == [] ==> skipped == {}
      invariant forall f :: f in skipped ==> Withheld(store, missing, f)
      invariant forall o :: o in missing ==> o !in store && TreeOf(full, oldRoot, Some(newRoot), o)
      invariant visited <= all
      decreases |all - visited|
    {
      var f := stack[|stack| - 1];
      OpenParts(full, oldRoot, Some(newRoot), removing, open, changes, removals);
      PopSkips(stack, skipped, open, visited);
      PrefixIsKnown(full, rank, oldRoot, newRoot, open, f);
      assert all - visited - {f.prefix} == all - (visited + {f.prefix});
      var read, lacking := ReadFrame(store, f);
      if read.None? {
        forall o | o in lacking ensures o !in store && TreeOf(full, oldRoot, Some(newRoot), o) {
          FrameTrees(full, oldRoot, Some(newRoot), f, o);
        }
        NamesMore(store, missing, lacking, skipped, f);
        stack, missing := stack[..|stack| - 1], missing + lacking;
        skipped, visited := skipped + {f}, visited + {f.prefix};
      } else {
        FrameReads(store, full, f);
        var cs, rs, frames := CompareFrame(removing, f.prefix, read.value.0, read.value.1);
        ghost var names := AnswerNames(removing, f.prefix, read.value.0, read.value.1, cs, rs, frames);
        FrameStep(full, oldRoot, Some(newRoot), removing, open, f, names, changes, removals, cs, rs, frames);
        OpenParts(full, oldRoot, Some(newRoot), removing, open - {f} + FrameSet(frames), changes + cs, removals + rs);
        ComparedFrames(removing, f.prefix, read.value.0, read.value.1, names, cs, rs, frames);
        PopReplaces(removing, read.value.0, read.value.1, names, frames, stack, skipped, open, visited);
        changes, removals, stack := changes + cs, removals + rs, stack[..|stack| - 1] + frames;
        open, visited := open - {f} + FrameSet(frames), visited + {f.prefix};
      }
    }
    EmptyStack(skipped, open, visited);
    OpenParts(full, oldRoot, Some(newRoot), removing, open, changes, removals);
    var unreadable := Dedup(missing);
    d := Diff(changes, removals, unreadable);
    NamesOnce(store, missing, unreadable, skipped);
    forall path | path != [] && !Hidden(store, full, oldRoot, Some(newRoot), d.unreadable, path)
      ensures Told(full, oldRoot, Some(newRoot), removing, d, path)
    {
      OutsideIsTold(store, full, oldRoot, Some(newRoot), removing, open, d, path);
    }
    if d.unreadable == [] {
      DoneIsExact(full, oldRoot, Some(newRoot), removing, changes, removals, unreadable);
    }
  }

  lemma AnswerNames(removing: bool, prefix: Path, oldE: seq<Child>, newE: seq<Child>,
                    changes: seq<Change>, removals: seq<Removal>, frames: seq<Frame>) returns (names: set<Name>)
    requires Answers(removing, prefix, oldE, newE, changes, removals, frames)
    ensures Covers(removing, oldE, newE, names)
    ensures Compared(removing, prefix, oldE, newE, names, changes, removals, frames)
  {
    names :| Covers(removing, oldE, newE, names)
      && Compared(removing, prefix, oldE, newE, names, changes, removals, frames);
  }

  lemma FrameTrees(full: Store, oldRoot: Option<Oid>, newRoot: Option<Oid>, f: Frame, o: Oid)
    requires FrameTrue(full, oldRoot, newRoot, f) && (f.was == Some(o) || f.now == Some(o))
    ensures TreeOf(full, oldRoot, newRoot, o)
  {
    hide Find;
    if f.prefix != [] {
      assert TreeAt(full, oldRoot, f.prefix, o) || TreeAt(full, newRoot, f.prefix, o);
    }
  }

  lemma NamesMore(store: Store, missing: seq<Oid>, more: seq<Oid>, skipped: set<Frame>, f: Frame)
    requires forall g :: g in skipped ==> Withheld(store, missing, g)
    requires Withheld(store, more, f)
    ensures forall g :: g in skipped + {f} ==> Withheld(store, missing + more, g)
  {
    assert forall o :: o in missing ==> o in missing + more;
    assert forall o :: o in more ==> o in missing + more;
  }

  lemma NamedOnce(missing: seq<Oid>, once: seq<Oid>, o: Oid)
    requires forall o :: o in once <==> o in missing
    ensures o in once <==> o in missing
  {
  }

  lemma NamesOnce(store: Store, missing: seq<Oid>, once: seq<Oid>, skipped: set<Frame>)
    requires forall f :: f in skipped ==> Withheld(store, missing, f)
    requires forall o :: o in once <==> o in missing
    ensures forall f :: f in skipped ==> Withheld(store, once, f)
  {
    forall f | f in skipped ensures Withheld(store, once, f) {
      assert Withheld(store, missing, f);
      if f.was.Some? {
        NamedOnce(missing, once, f.was.value);
      }
      if f.now.Some? {
        NamedOnce(missing, once, f.now.value);
      }
    }
  }

  lemma EmptyStack(skipped: set<Frame>, open: set<Frame>, visited: set<Path>)
    requires Stacked([], skipped, open, visited)
    ensures open == skipped
  {
  }

  lemma SameRoot(full: Store, root: Oid, removing: bool)
    ensures Truthful(full, Some(root), Some(root), removing, [], [])
    ensures Exact(full, Some(root), Some(root), removing, Diff([], [], []))
  {
    hide Find;
  }

  lemma StackStart(f: Frame)
    ensures Stacked([f], {}, {f}, {})
  {
    assert FrameSet([f]) == {f};
  }

  lemma OpenParts(full: Store, oldRoot: Option<Oid>, newRoot: Option<Oid>, removing: bool, open: set<Frame>,
                  changes: seq<Change>, removals: seq<Removal>)
    requires Diffing(full, oldRoot, newRoot, removing, open, changes, removals)
    ensures Apart(open) && Truthful(full, oldRoot, newRoot, removing, changes, removals)
    ensures forall f :: f in open ==> FrameTrue(full, oldRoot, newRoot, f)
  {
    hide FrameTrue, Apart, Truthful, Outside, Accounted;
  }

  lemma ComparedFrames(removing: bool, prefix: Path, oldE: seq<Child>, newE: seq<Child>, names: set<Name>,
                       changes: seq<Change>, removals: seq<Removal>, frames: seq<Frame>)
    requires Compared(removing, prefix, oldE, newE, names, changes, removals, frames)
    ensures OncePerFrame(frames) && forall k :: 0 <= k < |frames| ==>
      FrameIs(removing, prefix, oldE, newE, names, frames[k])
  {
    hide FrameIs, OncePerFrame, Handled;
  }

  lemma FrameReads(store: Store, full: Store, f: Frame)
    requires Extends(store, full) && AllUnique(full)
    requires (f.was.Some? ==> f.was.value in store) && (f.now.Some? ==> f.now.value in store)
    ensures ChildrenOf(store, f.was) == ChildrenOf(full, f.was) && UniqueNames(ChildrenOf(full, f.was))
    ensures ChildrenOf(store, f.now) == ChildrenOf(full, f.now) && UniqueNames(ChildrenOf(full, f.now))
  {
    if f.was.Some? {
      TreeReads(store, full, f.was.value);
    }
    if f.now.Some? {
      TreeReads(store, full, f.now.value);
    }
  }

  lemma TreeReads(store: Store, full: Store, t: Oid)
    requires Extends(store, full) && AllUnique(full) && t in store
    ensures t in full && full[t] == store[t] && UniqueNames(full[t])
  {
  }

  /** The paths of every tree either root holds. */
  ghost function Universe(full: Store, rank: Oid -> nat, oldRoot: Option<Oid>, newRoot: Oid): set<Path>
    requires Ranked(full, rank)
  {
    (if oldRoot.Some? then Dirs(full, rank, oldRoot.value) else {}) + Dirs(full, rank, newRoot)
  }

  lemma PrefixIsKnown(full: Store, rank: Oid -> nat, oldRoot: Option<Oid>, newRoot: Oid, open: set<Frame>, f: Frame)
    requires Ranked(full, rank) && f in open && forall g :: g in open ==> FrameTrue(full, oldRoot, Some(newRoot), g)
    ensures f.prefix in Universe(full, rank, oldRoot, newRoot)
  {
    hide Find, DirsAmong;
    if f.prefix != [] {
      if f.now.Some? {
        TreeIsDir(full, rank, newRoot, f.prefix);
      } else {
        if oldRoot.None? {
          NothingBelow(full, f.prefix);
        }
        TreeIsDir(full, rank, oldRoot.value, f.prefix);
      }
    }
  }

  /** The new tree is the old one, less what was removed, with what changed on top. */
  lemma DiffRestores(full: Store, oldRoot: Option<Oid>, newRoot: Option<Oid>, d: Diff, path: Path)
    requires Exact(full, oldRoot, newRoot, true, d) && path != []
    ensures forall c :: c in d.changes && c.path == path ==> Find(full, newRoot, path) == Some(Item(c.isTree, c.now))
    ensures !ChangedAt(d.changes, path) ==>
      Find(full, newRoot, path) == if RemovedAt(d.removals, path) then None else Find(full, oldRoot, path)
  {
    hide Find;
    forall c | c in d.changes && c.path == path ensures Find(full, newRoot, path) == Some(Item(c.isTree, c.now)) {
      var k :| 0 <= k < |d.changes| && d.changes[k] == c;
      assert ChangeTrue(full, oldRoot, newRoot, d.changes[k]);
    }
  }
}
