/** Deciding which delta bases of a push may stand, so that chains stay short and
    never close on themselves.

    Packs are taken in topological order of their commits. What is proved is
    about whole chains: no entry ends one longer than its kind allows, and
    what is stored together with what survives holds no cycle.
*/
module Chains {
  import opened Graphs
  import opened Bands
  import opened Objects
  import opened TopoOrder

  /** Bytes copied from a received pack, or made by the server. */
  datatype Source = Wire(at: WireRef) | Encoded

  /** A planned entry: which object, the base of its delta if it has one, and its bytes. */
  datatype Entry = Entry(oid: Oid, kind: Kind, base: Option<Oid>, source: Source)

  const MAX_TREE_CHAIN := 8
  const MAX_BLOB_CHAIN := 32

  function MaxChain(kind: Kind): nat
  {
    if kind == Tree then MAX_TREE_CHAIN else MAX_BLOB_CHAIN
  }

  /** A linear order on objects: by first pack for those stored, then by rank for new ones. */
  datatype Placed = Stored(pack: int) | InPush(at: nat)
  {
    predicate AtLeast(other: Placed)
    {
      match (this, other)
      case (Stored(a), Stored(b)) => a >= b
      case (InPush(a), InPush(b)) => a >= b
      case (Stored(_), InPush(_)) => false
      case (InPush(_), Stored(_)) => true
    }
  }

  /** The place used for `oid` when it could be two: the stored one if `preferStored`,
      else the pushed one. */
  function PlacedAt(oid: Oid, storedAt: map<Oid, int>, rank: map<Oid, nat>, preferStored: bool): Option<Placed>
  {
    var stored := if oid in storedAt then Some(Stored(storedAt[oid])) else None;
    var inPush := if oid in rank then Some(InPush(rank[oid])) else None;
    if preferStored then (if stored.Some? then stored else inPush) else (if inPush.Some? then inPush else stored)
  }

  /** The entry without its base; received delta bytes go too, being of no use alone. */
  function Cut(e: Entry): Entry
  {
    e.(base := None, source := if e.base.Some? && e.source.Wire? then Encoded else e.source)
  }

  /** What the store answers about the objects a plan names: the first pack of
      each, and the chain depth of each base the push does not itself hold. */
  datatype Answers = Answers(storedAt: map<Oid, int>, olderDepths: map<Oid, nat>)

  /** How far the walk has got: a depth and a rank per object met, ranks handed
      out by first appearance. */
  datatype Progress = Progress(depth: map<Oid, nat>, rank: map<Oid, nat>, next: nat)

  /** A base that does not strictly precede the object could loop. */
  predicate CouldLoop(e: Entry, a: Answers, s: Progress)
  {
    e.base.Some?
    && var own := PlacedAt(e.oid, a.storedAt, s.rank, true);
    var base := PlacedAt(e.base.value, a.storedAt, s.rank, false);
    own.Some? && base.Some? && base.value.AtLeast(own.value)
  }

  /** How long a chain this entry would end, or `None` when nothing stores its base. */
  function Reached(e: Entry, a: Answers, s: Progress): Option<nat>
  {
    match e.base
    case None => Some(0)
    case Some(b) =>
      if b in s.depth then Some(s.depth[b] + 1)
      else if b in a.olderDepths then Some(a.olderDepths[b] + 1)
      else None
  }

  /** One entry of the walk, as it is left. */
  function Bounded(e: Entry, a: Answers, s: Progress): Entry
  {
    var e1 := if CouldLoop(e, a, s) then Cut(e) else e;
    var reached := Reached(e1, a, s);
    if reached.None? || reached.value > MaxChain(e.kind) then Cut(e1) else e1
  }

  /** The walk's record after that entry. */
  function Advance(e: Entry, a: Answers, s: Progress): Progress
  {
    var left := Bounded(e, a, s);
    var reached := Reached(left, a, s);
    if e.oid in s.rank then s
    else Progress(s.depth[e.oid := if reached.Some? then reached.value else 0], s.rank[e.oid := s.next], s.next + 1)
  }

  const START := Progress(map[], map[], 0)

  /** The record after the first entries of a walk. */
  function After(walk: seq<Entry>, a: Answers): Progress
  {
    if walk == [] then START
    else Advance(walk[|walk| - 1], a, After(walk[..|walk| - 1], a))
  }

  /** The whole walk, as it is left. */
  function BoundedWalk(walk: seq<Entry>, a: Answers): (r: seq<Entry>)
    ensures |r| == |walk|
  {
    if walk == [] then []
    else
      var rest := walk[..|walk| - 1];
      BoundedWalk(rest, a) + [Bounded(walk[|walk| - 1], a, After(rest, a))]
  }

  /** Each entry is left as it was, or cut. */
  lemma BoundedIsCut(e: Entry, a: Answers, s: Progress)
    ensures var r := Bounded(e, a, s); r == e || r == Cut(e)
  {
  }

  lemma {:induction false} BoundedAt(walk: seq<Entry>, a: Answers, i: nat)
    requires i < |walk|
    ensures BoundedWalk(walk, a)[i] == Bounded(walk[i], a, After(walk[..i], a))
    ensures BoundedWalk(walk, a)[..i] == BoundedWalk(walk[..i], a)
  {
    var rest := walk[..|walk| - 1];
    if i < |walk| - 1 {
      BoundedAt(rest, a, i);
      assert rest[..i] == walk[..i] && rest[i] == walk[i];
      assert BoundedWalk(walk, a)[..i] == BoundedWalk(rest, a)[..i];
    } else {
      assert walk[..i] == rest;
    }
  }

  /** The oids of a walk. */
  ghost predicate Meets(walk: seq<Entry>, o: Oid)
  {
    exists i :: 0 <= i < |walk| && walk[i].oid == o
  }

  /** The first entry that stores `o`. */
  ghost function FirstOf(walk: seq<Entry>, o: Oid): (i: nat)
    requires Meets(walk, o)
    ensures i < |walk| && walk[i].oid == o
    ensures forall j :: 0 <= j < i ==> walk[j].oid != o
  {
    if walk[0].oid == o then 0
    else
      assert Meets(walk[1..], o) by {
        var j :| 0 <= j < |walk| && walk[j].oid == o;
        assert walk[1..][j - 1].oid == o;
      }
      1 + FirstOf(walk[1..], o)
  }

  /** Hops from entry `i` to something whole: each base is followed to its first
      entry in this walk, and otherwise to the depth it is stored at. */
  ghost function Hops(walk: seq<Entry>, older: map<Oid, nat>, i: nat): nat
    requires i < |walk|
    decreases i
  {
    match walk[i].base
    case None => 0
    case Some(b) =>
      if Meets(walk[..i], b) then 1 + Hops(walk, older, FirstOf(walk[..i], b))
      else if b in older then 1 + older[b]
      else 1
  }

  lemma {:induction false} FirstOfPrefix(walk: seq<Entry>, k: nat, o: Oid)
    requires k <= |walk| && Meets(walk[..k], o)
    ensures Meets(walk, o) && FirstOf(walk, o) == FirstOf(walk[..k], o)
  {
    var i := FirstOf(walk[..k], o);
    assert walk[i].oid == o;
    assert forall j :: 0 <= j < i ==> walk[j] == walk[..k][j];
  }

  /** Hops depend only on what the walk met before. */
  lemma {:induction false} HopsPrefix(walk: seq<Entry>, k: nat, older: map<Oid, nat>, i: nat)
    requires i < k <= |walk|
    ensures Hops(walk[..k], older, i) == Hops(walk, older, i)
    decreases i
  {
    assert walk[..k][..i] == walk[..i];
    if walk[i].base.Some? && Meets(walk[..i], walk[i].base.value) {
      HopsPrefix(walk, k, older, FirstOf(walk[..i], walk[i].base.value));
    }
  }

  /** The walk's record says what it should of the entries left behind it. */
  ghost predicate Tracks(left: seq<Entry>, a: Answers, s: Progress)
  {
    && s.depth.Keys == s.rank.Keys
    && (forall o :: o in s.rank <==> Meets(left, o))
    && (forall o :: o in s.rank ==> s.rank[o] < s.next)
    && (forall o :: o in s.depth && Meets(left, o) ==> s.depth[o] == Hops(left, a.olderDepths, FirstOf(left, o)))
  }

  /** One more entry: what the record held of the rest still holds. */
  lemma TrackOne(left: seq<Entry>, e: Entry, a: Answers, s: Progress)
    requires Tracks(left, a, s)
    ensures Tracks(left + [Bounded(e, a, s)], a, Advance(e, a, s))
  {
    var last, next := Bounded(e, a, s), left + [Bounded(e, a, s)];
    var s' := Advance(e, a, s);
    BoundedIsCut(e, a, s);
    assert next[..|left|] == left && next[|left|] == last;
    forall o ensures Meets(next, o) <==> Meets(left, o) || o == e.oid {
      if Meets(left, o) {
        var i :| 0 <= i < |left| && left[i].oid == o;
        assert next[i].oid == o;
      }
    }
    forall o | o in s'.depth && Meets(next, o)
      ensures s'.depth[o] == Hops(next, a.olderDepths, FirstOf(next, o))
    {
      if o in s.depth {
        FirstOfPrefix(next, |left|, o);
        HopsPrefix(next, |left|, a.olderDepths, FirstOf(left, o));
      } else {
        NewDepth(left, e, a, s);
        assert forall i :: 0 <= i < |left| ==> next[i] == left[i];
        assert FirstOf(next, o) == |left|;
      }
    }
  }

  /** The depth recorded for an object met for the first time is its entry's. */
  lemma NewDepth(left: seq<Entry>, e: Entry, a: Answers, s: Progress)
    requires Tracks(left, a, s)
    ensures var last := Bounded(e, a, s);
      var hops := Hops(left + [last], a.olderDepths, |left|);
      && Reached(last, a, s) == Some(hops)
      && hops <= MaxChain(e.kind)
      && (last.base.Some? ==> last.base.value in s.depth || last.base.value in a.olderDepths)
  {
    var last := Bounded(e, a, s);
    var next := left + [last];
    BoundedIsCut(e, a, s);
    assert next[..|left|] == left;
    if last.base.Some? {
      var b := last.base.value;
      assert last == e;
      if b in s.depth {
        HopsPrefix(next, |left|, a.olderDepths, FirstOf(left, b));
      }
    }
  }

  lemma {:induction false} TrackAll(walk: seq<Entry>, a: Answers)
    ensures Tracks(BoundedWalk(walk, a), a, After(walk, a))
  {
    if walk != [] {
      var rest := walk[..|walk| - 1];
      TrackAll(rest, a);
      TrackOne(BoundedWalk(rest, a), walk[|walk| - 1], a, After(rest, a));
    }
  }

  /** No entry ends a chain longer than its kind allows, and every base left is
      met earlier in the walk or stored already. */
  lemma ChainsAreBounded(walk: seq<Entry>, a: Answers, i: nat)
    requires i < |walk|
    ensures var left := BoundedWalk(walk, a);
      && Hops(left, a.olderDepths, i) <= MaxChain(walk[i].kind)
      && (left[i].base.Some? ==> Meets(left[..i], left[i].base.value) || left[i].base.value in a.olderDepths)
  {
    var left := BoundedWalk(walk, a);
    BoundedAt(walk, a, i);
    TrackAll(walk[..i], a);
    NewDepth(left[..i], walk[i], a, After(walk[..i], a));
    var upto := left[..i] + [left[i]];
    assert upto == left[..i + 1];
    HopsPrefix(left, i + 1, a.olderDepths, i);
  }

  /** An entry whose base was cut no longer points at the client's bytes. */
  lemma CutDropsClientBytes(walk: seq<Entry>, a: Answers, i: nat)
    requires i < |walk|
    ensures var left := BoundedWalk(walk, a);
      && left[i].oid == walk[i].oid && left[i].kind == walk[i].kind
      && (left[i].base == walk[i].base || left[i].base == None)
      && (left[i].base == walk[i].base ==> left[i] == walk[i])
      && (left[i].base != walk[i].base ==> left[i].source == Encoded)
  {
    BoundedAt(walk, a, i);
    BoundedIsCut(walk[i], a, After(walk[..i], a));
  }

  // ---------------------------------------------------------------- cycles

  /** The base edges a walk leaves, object to object. */
  ghost function BaseEdge(walk: seq<Entry>): (Oid, Oid) -> bool
  {
    (o, b) => exists i :: 0 <= i < |walk| && walk[i].oid == o && walk[i].base == Some(b)
  }

  /** What the store was asked, and answered truthfully: where each object that
      has a base, and each base the push lacks, was first packed. */
  ghost predicate Truthful(walk: seq<Entry>, a: Answers, firstPack: map<Oid, int>)
  {
    && (forall o :: o in a.storedAt ==> o in firstPack && a.storedAt[o] == firstPack[o])
    && (forall i :: 0 <= i < |walk| && walk[i].base.Some? && walk[i].oid in firstPack ==> walk[i].oid in a.storedAt)
    && (forall b :: b in a.olderDepths ==> b in a.storedAt)
  }

  /** Where an object stands once the push is stored: stored objects by their
      first pack, introduced ones after all of them by rank. */
  ghost function Weight(firstPack: map<Oid, int>, rank: map<Oid, nat>, top: int, o: Oid): int
  {
    if o in firstPack then firstPack[o] else top + if o in rank then rank[o] else 0
  }

  /** A rank, once given, is kept, and later ones are higher. */
  lemma {:induction false} RanksGrow(walk: seq<Entry>, a: Answers, i: nat)
    requires i <= |walk|
    ensures var early, late := After(walk[..i], a), After(walk, a);
      && early.next <= late.next
      && (forall o :: o in early.rank ==> o in late.rank && late.rank[o] == early.rank[o])
      && (forall o :: o in late.rank && o !in early.rank ==> late.rank[o] >= early.next)
  {
    if i < |walk| {
      RanksGrow(walk[..|walk| - 1], a, i);
      assert walk[..|walk| - 1][..i] == walk[..i];
    } else {
      assert walk[..i] == walk;
    }
  }

  /** Every base that survives stands strictly before the object it serves. */
  lemma SurvivorPrecedes(walk: seq<Entry>, a: Answers, firstPack: map<Oid, int>, top: int, i: nat)
    requires i < |walk| && Truthful(walk, a, firstPack)
    requires forall o :: o in firstPack ==> firstPack[o] < top
    requires BoundedWalk(walk, a)[i].base.Some?
    ensures var rank := After(walk, a).rank;
      Weight(firstPack, rank, top, BoundedWalk(walk, a)[i].base.value) < Weight(firstPack, rank, top, walk[i].oid)
  {
    hide BoundedWalk, After, Hops, FirstOf;
    var s := After(walk[..i], a);
    BoundedAt(walk, a, i);
    BoundedIsCut(walk[i], a, s);
    TrackAll(walk[..i], a);
    NewDepth(BoundedWalk(walk[..i], a), walk[i], a, s);
    RanksGrow(walk, a, i);
    RankedAfter(walk, a, i);
  }

  /** The walk ranks what it has just met at or after everything met before. */
  lemma RankedAfter(walk: seq<Entry>, a: Answers, i: nat)
    requires i < |walk|
    ensures var rank, s := After(walk, a).rank, After(walk[..i], a);
      && walk[i].oid in rank
      && (walk[i].oid !in s.rank ==> rank[walk[i].oid] == s.next)
  {
    RanksGrow(walk, a, i + 1);
    assert walk[..i + 1][..i] == walk[..i];
  }

  /** Objects are ranked in the order they are first met. */
  lemma RankIsTurn(walk: seq<Entry>, a: Answers, o: Oid, b: Oid)
    requires var left := BoundedWalk(walk, a); Meets(left, o) && Meets(left, b)
    ensures var left, rank := BoundedWalk(walk, a), After(walk, a).rank;
      o in rank && b in rank && (rank[b] < rank[o] <==> FirstOf(left, b) < FirstOf(left, o))
  {
    hide After, BoundedWalk;
    var left := BoundedWalk(walk, a);
    TrackAll(walk, a);
    if FirstOf(left, b) < FirstOf(left, o) {
      RankedSooner(walk, a, b, o);
    } else if o != b {
      RankedSooner(walk, a, o, b);
    }
  }

  lemma RankedSooner(walk: seq<Entry>, a: Answers, o: Oid, b: Oid)
    requires var left := BoundedWalk(walk, a); Meets(left, o) && Meets(left, b) && FirstOf(left, o) < FirstOf(left, b)
    ensures var rank := After(walk, a).rank; o in rank && b in rank && rank[o] < rank[b]
  {
    hide After, BoundedWalk;
    var left := BoundedWalk(walk, a);
    var i, j := FirstOf(left, o), FirstOf(left, b);
    assert left[..j][i].oid == o;
    BoundedAt(walk, a, j);
    TrackAll(walk, a);
    TrackAll(walk[..j], a);
    RanksGrow(walk, a, j);
  }

  lemma AllBelow(firstPack: map<Oid, int>) returns (top: int)
    ensures forall o :: o in firstPack ==> firstPack[o] < top
    decreases |firstPack|
  {
    top := 0;
    if firstPack.Keys != {} {
      var o := PickGhost(firstPack.Keys);
      var rest := firstPack - {o};
      var under := AllBelow(rest);
      top := if under <= firstPack[o] then firstPack[o] + 1 else under;
      assert forall q :: q in firstPack && q != o ==> q in rest && rest[q] == firstPack[q];
    }
  }

  /** Given a stored delta graph without a cycle, whose bases are never first
      packed after what they serve, adding every base that survives leaves the
      whole graph without one: repeated, re-included and self-naming objects
      included. */
  lemma DeltasStayAcyclic(walk: seq<Entry>, a: Answers, firstPack: map<Oid, int>, stored: (Oid, Oid) -> bool)
    requires Truthful(walk, a, firstPack)
    requires Acyclic(stored)
    requires forall o, b :: stored(o, b) ==> o in firstPack && b in firstPack && firstPack[b] <= firstPack[o]
    ensures Acyclic(Either(stored, BaseEdge(BoundedWalk(walk, a))))
  {
    hide Acyclic;
    var top := AllBelow(firstPack);
    var rank := After(walk, a).rank;
    var down := BaseEdge(BoundedWalk(walk, a));
    var weight := (o: Oid) => Weight(firstPack, rank, top, o);
    forall o, b | down(o, b) ensures weight(b) < weight(o) {
      var i :| 0 <= i < |walk| && BoundedWalk(walk, a)[i].oid == o && BoundedWalk(walk, a)[i].base == Some(b);
      CutDropsClientBytes(walk, a, i);
      SurvivorPrecedes(walk, a, firstPack, top, i);
    }
    forall o, b | stored(o, b) ensures weight(b) <= weight(o) { }
    MixedIsAcyclic(stored, down, weight);
  }

  // ------------------------------------------------- which bases are kept

  /** The base does not stand before the object: by first pack where both are stored,
      by first entry met where neither is, and anything met after anything stored. */
  ghost predicate NotBefore(firstPack: map<Oid, int>, seen: seq<Entry>, o: Oid, b: Oid)
  {
    if o in firstPack then Meets(seen, b) || (b in firstPack && firstPack[b] >= firstPack[o])
    else Meets(seen, o) && Meets(seen, b) && FirstOf(seen, b) >= FirstOf(seen, o)
  }

  /** A base is kept exactly when it is met already or stored with a depth, the chain
      it makes is within eight hops for a tree and thirty-two otherwise, and it
      stands before its object. */
  ghost predicate MayStay(firstPack: map<Oid, int>, older: map<Oid, nat>, seen: seq<Entry>, e: Entry)
    requires e.base.Some?
  {
    && (Meets(seen, e.base.value) || e.base.value in older)
    && Hops(seen + [e], older, |seen|) <= (if e.kind == Tree then 8 else 32)
    && !NotBefore(firstPack, seen, e.oid, e.base.value)
  }

  lemma BaseIsKeptIff(walk: seq<Entry>, a: Answers, firstPack: map<Oid, int>, i: nat)
    requires i < |walk| && walk[i].base.Some? && Truthful(walk, a, firstPack)
    ensures var left := BoundedWalk(walk, a);
      left[i] == walk[i] <==> MayStay(firstPack, a.olderDepths, left[..i], walk[i])
  {
    hide After, BoundedWalk, FirstOf, Tracks;
    var seen, s := BoundedWalk(walk[..i], a), After(walk[..i], a);
    BoundedAt(walk, a, i);
    TrackAll(walk[..i], a);
    LoopIsNotBefore(walk, a, firstPack, i, seen, s);
    ReachedIsHops(seen, walk[i], a, s);
  }

  lemma ReachedIsHops(seen: seq<Entry>, e: Entry, a: Answers, s: Progress)
    requires Tracks(seen, a, s) && e.base.Some?
    ensures Reached(e, a, s).Some? <==> Meets(seen, e.base.value) || e.base.value in a.olderDepths
    ensures Reached(e, a, s).Some? ==> Reached(e, a, s).value == Hops(seen + [e], a.olderDepths, |seen|)
  {
    var next, b := seen + [e], e.base.value;
    assert next[..|seen|] == seen;
    if Meets(seen, b) {
      HopsPrefix(next, |seen|, a.olderDepths, FirstOf(seen, b));
    }
  }

  /** Unless its base is unknown anyway, an entry could loop exactly when its base does not stand before it. */
  lemma LoopIsNotBefore(walk: seq<Entry>, a: Answers, firstPack: map<Oid, int>, i: nat, seen: seq<Entry>, s: Progress)
    requires i < |walk| && walk[i].base.Some? && Truthful(walk, a, firstPack)
    requires seen == BoundedWalk(walk[..i], a) && s == After(walk[..i], a) && Tracks(seen, a, s)
    ensures var b := walk[i].base.value;
      Meets(seen, b) || b in a.olderDepths ==>
        (CouldLoop(walk[i], a, s) <==> NotBefore(firstPack, seen, walk[i].oid, b))
  {
    hide After, BoundedWalk, FirstOf, Hops;
    var o, b := walk[i].oid, walk[i].base.value;
    if Meets(seen, o) && Meets(seen, b) {
      RankIsTurn(walk[..i], a, o, b);
    }
  }

  // ------------------------------------------------------------- the walk

  /** Every pack's entries, in the order their commits are walked. */
  ghost function Flat(packs: map<Oid, seq<Entry>>, order: seq<Oid>): seq<Entry>
  {
    if order == [] then []
    else Flat(packs, order[..|order| - 1]) + EntriesOf(packs, order[|order| - 1])
  }

  function EntriesOf(packs: map<Oid, seq<Entry>>, commit: Oid): seq<Entry>
  {
    if commit in packs then packs[commit] else []
  }

  lemma {:induction false} FlatFrom(packs: map<Oid, seq<Entry>>, order: seq<Oid>, k: nat)
    requires k < |Flat(packs, order)|
    ensures exists c, i :: c in packs && 0 <= i < |packs[c]| && packs[c][i] == Flat(packs, order)[k]
  {
    var rest, last := order[..|order| - 1], order[|order| - 1];
    if k < |Flat(packs, rest)| {
      FlatFrom(packs, rest, k);
    } else {
      assert packs[last][k - |Flat(packs, rest)|] == Flat(packs, order)[k];
    }
  }

  lemma {:induction false} FlatUnchanged(packs: map<Oid, seq<Entry>>, order: seq<Oid>, c: Oid, entries: seq<Entry>)
    requires c !in order
    ensures Flat(packs[c := entries], order) == Flat(packs, order)
  {
    if order != [] {
      var last := order[|order| - 1];
      assert last in order;
      FlatUnchanged(packs, order[..|order| - 1], c, entries);
    }
  }

  function OidsIn(packs: map<Oid, seq<Entry>>): set<Oid>
  {
    set c, i | c in packs && 0 <= i < |packs[c]| :: packs[c][i].oid
  }

  /** Bases the push itself does not hold. */
  function OlderIn(packs: map<Oid, seq<Entry>>): set<Oid>
  {
    (set c, i | c in packs && 0 <= i < |packs[c]| && packs[c][i].base.Some? :: packs[c][i].base.value) - OidsIn(packs)
  }

  /** Objects that could close a loop: those with a base, and the older bases. */
  function KnownIn(packs: map<Oid, seq<Entry>>): set<Oid>
  {
    (set c, i | c in packs && 0 <= i < |packs[c]| && packs[c][i].base.Some? :: packs[c][i].oid) + OlderIn(packs)
  }

  /** What the store is asked, and answers, before the walk. */
  function Ask(packs: map<Oid, seq<Entry>>, firstPack: map<Oid, int>, depths: map<Oid, nat>): Answers
  {
    Answers(map o | o in KnownIn(packs) && o in firstPack :: firstPack[o],
            map o | o in OlderIn(packs) && o in depths :: depths[o])
  }

  /** Those answers are the truth about the walk, given that only stored
      objects have a chain depth; and no base asked about is in the push. */
  lemma AskIsTruthful(packs: map<Oid, seq<Entry>>, order: seq<Oid>, firstPack: map<Oid, int>, depths: map<Oid, nat>)
    requires depths.Keys <= firstPack.Keys
    ensures Truthful(Flat(packs, order), Ask(packs, firstPack, depths), firstPack)
    ensures forall b :: b in Ask(packs, firstPack, depths).olderDepths ==> !Meets(Flat(packs, order), b)
  {
    var walk, a := Flat(packs, order), Ask(packs, firstPack, depths);
    forall i | 0 <= i < |walk| && walk[i].base.Some? && walk[i].oid in firstPack ensures walk[i].oid in a.storedAt {
      FlatFrom(packs, order, i);
      var c, k :| c in packs && 0 <= k < |packs[c]| && packs[c][k] == walk[i];
      assert packs[c][k].oid in KnownIn(packs);
    }
    forall b | b in a.olderDepths ensures !Meets(walk, b) {
      forall i | 0 <= i < |walk| ensures walk[i].oid != b {
        FlatFrom(packs, order, i);
        var c, k :| c in packs && 0 <= k < |packs[c]| && packs[c][k] == walk[i];
        assert packs[c][k].oid in OidsIn(packs);
      }
    }
  }

  /** The same entries, each as it was or cut. */
  ghost predicate Cuts(was: seq<Entry>, left: seq<Entry>)
  {
    |left| == |was| && forall k :: 0 <= k < |was| ==> left[k] == was[k] || left[k] == Cut(was[k])
  }

  /** One pack of the walk, entry by entry. */
  method BoundPack(entries: seq<Entry>, a: Answers, s: Progress, ghost walked: seq<Entry>)
    returns (left: seq<Entry>, s': Progress)
    requires s == After(walked, a)
    ensures s' == After(walked + entries, a)
    ensures BoundedWalk(walked + entries, a) == BoundedWalk(walked, a) + left
    ensures Cuts(entries, left)
  {
    hide Bounded;
    hide Advance;
    left, s' := [], s;
    assert walked + entries[..0] == walked;
    for i := 0 to |entries|
      invariant s' == After(walked + entries[..i], a)
      invariant BoundedWalk(walked + entries[..i], a) == BoundedWalk(walked, a) + left
      invariant |left| == i && forall k :: 0 <= k < i ==> left[k] == entries[k] || left[k] == Cut(entries[k])
    {
      var e := entries[i];
      ghost var now := walked + entries[..i + 1];
      assert now[..|now| - 1] == walked + entries[..i] && now[|now| - 1] == e;
      BoundedIsCut(e, a, s');
      left := left + [Bounded(e, a, s')];
      s' := Advance(e, a, s');
    }
    assert entries[..|entries|] == entries;
  }

  /** The packs as they are left, or that the push's commits have a cycle. */
  datatype BoundOutcome = Bound(packs: map<Oid, seq<Entry>>) | Unordered

  /** Bounds every pack of every commit in `parents`, in one order found for them, or
      reports that they have none; a pack of any other commit is returned as it came. */
  method BoundChains(packs: map<Oid, seq<Entry>>, parents: Batch, firstPack: map<Oid, int>, depths: map<Oid, nat>)
    returns (r: BoundOutcome, ghost order: seq<Oid>)
    ensures r.Bound? <==> Acyclic(ParentIn(parents))
    ensures r.Bound? ==> IsTopo(parents, order) && r.packs.Keys == packs.Keys
    ensures r.Bound? ==> Flat(r.packs, order) == BoundedWalk(Flat(packs, order), Ask(packs, firstPack, depths))
    ensures r.Bound? ==> forall c :: c in packs && c !in parents ==> r.packs[c] == packs[c]
    ensures r.Bound? ==> forall c :: c in packs ==> Cuts(packs[c], r.packs[c])
  {
    hide Acyclic;
    var a := Ask(packs, firstPack, depths);
    var topo := Order(parents);
    order := [];
    if topo.CycleDetected? {
      return Unordered, order;
    }
    order := topo.order;
    var out := BoundInOrder(packs, topo.order, a);
    forall c | c in packs && c !in parents ensures out[c] == packs[c] {
      assert c !in AsSet(topo.order);
    }
    r := Bound(out);
  }

  method BoundInOrder(packs: map<Oid, seq<Entry>>, order: seq<Oid>, a: Answers) returns (out: map<Oid, seq<Entry>>)
    requires Distinct(order)
    ensures out.Keys == packs.Keys
    ensures Flat(out, order) == BoundedWalk(Flat(packs, order), a)
    ensures forall c :: c in packs && c !in order ==> out[c] == packs[c]
    ensures forall c :: c in packs ==> Cuts(packs[c], out[c])
  {
    hide BoundedWalk;
    hide After;
    hide Flat;
    out := packs;
    var s := START;
    FlatStart(packs, a);
    assert order[..0] == [];
    for i := 0 to |order|
      invariant out.Keys == packs.Keys
      invariant s == After(Flat(packs, order[..i]), a)
      invariant Flat(out, order[..i]) == BoundedWalk(Flat(packs, order[..i]), a)
      invariant forall c :: c in packs && c !in order[..i] ==> out[c] == packs[c]
      invariant forall c :: c in packs ==> Cuts(packs[c], out[c])
    {
      var c := order[i];
      assert order[..i + 1] == order[..i] + [c] && c !in order[..i];
      FlatStep(packs, order[..i], c);
      FlatStep(out, order[..i], c);
      if c in packs {
        var left, s' := BoundPack(out[c], a, s, Flat(packs, order[..i]));
        FlatUnchanged(out, order[..i], c, left);
        FlatStep(out[c := left], order[..i], c);
        out, s := out[c := left], s';
      } else {
        assert Flat(packs, order[..i]) + [] == Flat(packs, order[..i]);
        assert Flat(out, order[..i]) + [] == Flat(out, order[..i]);
      }
    }
    assert order[..|order|] == order;
  }

  lemma FlatStart(packs: map<Oid, seq<Entry>>, a: Answers)
    ensures After(Flat(packs, []), a) == START
    ensures Flat(packs, []) == BoundedWalk(Flat(packs, []), a)
  {
  }

  lemma FlatStep(packs: map<Oid, seq<Entry>>, order: seq<Oid>, c: Oid)
    ensures Flat(packs, order + [c]) == Flat(packs, order) + EntriesOf(packs, c)
  {
    assert (order + [c])[..|order|] == order;
  }

  // --------------------------------------------------- the packs it leaves

  /** The base edges of the packs whose commits are walked. */
  ghost function PushEdge(packs: map<Oid, seq<Entry>>, parents: Batch): (Oid, Oid) -> bool
  {
    (o, b) => exists c, k :: c in packs && c in parents && 0 <= k < |packs[c]|
                && packs[c][k].oid == o && packs[c][k].base == Some(b)
  }

  lemma {:induction false} FlatHas(packs: map<Oid, seq<Entry>>, order: seq<Oid>, c: Oid, k: nat)
    requires c in order && c in packs && k < |packs[c]|
    ensures exists i :: 0 <= i < |Flat(packs, order)| && Flat(packs, order)[i] == packs[c][k]
  {
    var rest, last := order[..|order| - 1], order[|order| - 1];
    if c == last {
      assert Flat(packs, order)[|Flat(packs, rest)| + k] == packs[c][k];
    } else {
      FlatHas(packs, rest, c, k);
      var i :| 0 <= i < |Flat(packs, rest)| && Flat(packs, rest)[i] == packs[c][k];
      assert Flat(packs, order)[i] == packs[c][k];
    }
  }

  /** Where every base is met or asked about, the depths asked for are all the depths that count. */
  lemma {:induction false} HopsAsked(walk: seq<Entry>, asked: map<Oid, nat>, depths: map<Oid, nat>, i: nat)
    requires i < |walk| && forall b :: b in asked ==> b in depths && depths[b] == asked[b]
    requires forall k :: 0 <= k < |walk| && walk[k].base.Some? ==>
      Meets(walk[..k], walk[k].base.value) || walk[k].base.value in asked
    ensures Hops(walk, depths, i) == Hops(walk, asked, i)
    decreases i
  {
    if walk[i].base.Some? && Meets(walk[..i], walk[i].base.value) {
      HopsAsked(walk, asked, depths, FirstOf(walk[..i], walk[i].base.value));
    }
  }

  /** What `BoundChains` leaves, for any depths the store reports: in every pack
      of a commit it walked, no entry ends a chain longer than its kind allows. */
  lemma PushIsBounded(packs: map<Oid, seq<Entry>>, left: map<Oid, seq<Entry>>, parents: Batch, order: seq<Oid>,
                      firstPack: map<Oid, int>, depths: map<Oid, nat>, c: Oid, k: nat)
    requires IsTopo(parents, order)
    requires Flat(left, order) == BoundedWalk(Flat(packs, order), Ask(packs, firstPack, depths))
    requires c in left && c in parents && k < |left[c]|
    ensures exists i ::
      && 0 <= i < |Flat(left, order)| && Flat(left, order)[i] == left[c][k]
      && Hops(Flat(left, order), depths, i) <= MaxChain(left[c][k].kind)
  {
    hide Hops, BoundedWalk, Flat, Meets;
    var walk, a, flat := Flat(packs, order), Ask(packs, firstPack, depths), Flat(left, order);
    assert c in AsSet(order);
    FlatHas(left, order, c, k);
    var i :| 0 <= i < |flat| && flat[i] == left[c][k];
    forall j | 0 <= j < |flat| && flat[j].base.Some?
      ensures Meets(flat[..j], flat[j].base.value) || flat[j].base.value in a.olderDepths
    {
      ChainsAreBounded(walk, a, j);
    }
    ChainsAreBounded(walk, a, i);
    CutDropsClientBytes(walk, a, i);
    HopsAsked(flat, a.olderDepths, depths, i);
  }

  /** The depths asked for are those of the bases that no pack of the push holds. */
  lemma AskIs(packs: map<Oid, seq<Entry>>, firstPack: map<Oid, int>, depths: map<Oid, nat>, c: Oid, k: nat)
    requires c in packs && k < |packs[c]| && packs[c][k].base.Some?
    ensures var b, older := packs[c][k].base.value, Ask(packs, firstPack, depths).olderDepths;
      && (b in older <==> b in depths && forall d, j :: d in packs && 0 <= j < |packs[d]| ==> packs[d][j].oid != b)
      && (b in older ==> older[b] == depths[b])
  {
    var b := packs[c][k].base.value;
    if b in OidsIn(packs) {
      var d, j :| d in packs && 0 <= j < |packs[d]| && packs[d][j].oid == b;
    } else {
      assert b in OlderIn(packs);
      forall d, j | d in packs && 0 <= j < |packs[d]| ensures packs[d][j].oid != b {
        assert packs[d][j].oid in OidsIn(packs);
      }
    }
  }

  /** Of every entry `BoundChains` walks: it keeps its base exactly when that may stay. */
  lemma PushKeepsBases(packs: map<Oid, seq<Entry>>, left: map<Oid, seq<Entry>>, order: seq<Oid>,
                       firstPack: map<Oid, int>, depths: map<Oid, nat>, i: nat)
    requires depths.Keys <= firstPack.Keys
    requires Flat(left, order) == BoundedWalk(Flat(packs, order), Ask(packs, firstPack, depths))
    requires i < |Flat(packs, order)| && Flat(packs, order)[i].base.Some?
    ensures var older := Ask(packs, firstPack, depths).olderDepths;
      Flat(left, order)[i] == Flat(packs, order)[i] <==>
        MayStay(firstPack, older, Flat(left, order)[..i], Flat(packs, order)[i])
  {
    hide Flat, Ask, MayStay, Truthful;
    AskIsTruthful(packs, order, firstPack, depths);
    BaseIsKeptIff(Flat(packs, order), Ask(packs, firstPack, depths), firstPack, i);
  }

  /** And its bases close no cycle with what is stored. */
  lemma PushStaysAcyclic(packs: map<Oid, seq<Entry>>, left: map<Oid, seq<Entry>>, parents: Batch, order: seq<Oid>,
                         firstPack: map<Oid, int>, depths: map<Oid, nat>, stored: (Oid, Oid) -> bool)
    requires IsTopo(parents, order)
    requires Flat(left, order) == BoundedWalk(Flat(packs, order), Ask(packs, firstPack, depths))
    requires depths.Keys <= firstPack.Keys && Acyclic(stored)
    requires forall o, b :: stored(o, b) ==> o in firstPack && b in firstPack && firstPack[b] <= firstPack[o]
    ensures Acyclic(Either(stored, PushEdge(left, parents)))
  {
    hide Flat, BoundedWalk, Ask, Truthful, Acyclic;
    AskIsTruthful(packs, order, firstPack, depths);
    DeltasStayAcyclic(Flat(packs, order), Ask(packs, firstPack, depths), firstPack, stored);
    var flat := BaseEdge(Flat(left, order));
    forall o, b | PushEdge(left, parents)(o, b) ensures flat(o, b) {
      var c, k :| c in left && c in parents && 0 <= k < |left[c]| && left[c][k].oid == o && left[c][k].base == Some(b);
      assert c in AsSet(order);
      FlatHas(left, order, c, k);
    }
    FewerEdges(Either(stored, flat), Either(stored, PushEdge(left, parents)));
  }
}
