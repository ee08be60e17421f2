/** What identification promises rebuilding, and where the two differ. */
module RebuildAccepts {
  import opened Objects
  import opened PackContent
  import opened Rebuild
  import opened ByteCaches
  import Resolve

  /** Deltas by position point backwards, as the scan resolves them. */
  ghost predicate PointsBack(pack: Pack)
  {
    forall i :: 0 <= i < |pack.entries| && pack.entries[i].base.InPack? ==> pack.entries[i].base.at < i
  }

  /** A pack the indexing pass identified, against objects the repository still holds. */
  ghost predicate Identified(codec: Codec, repo: map<Oid, Object>, p: WirePack)
  {
    && p.pack.codec == codec && PointsBack(p.pack)
    && Stored(codec, p.pack.repo) && p.pack.repo.Keys <= repo.Keys
    && Resolve.AllAre(p.pack)
    && exists resolved :: Resolve.RightIds(p.pack, p.oids, resolved)
  }

  /** The base an object was made from, and how. */
  lemma MadeFrom(pack: Pack, i: nat, o: Object) returns (n: nat, base: JobBase)
    requires i < |pack.entries| && Is(pack, i, o)
    ensures BaseOf(pack, Level(pack, n), i) == Some(base) && Decode(pack, i, base) == Some(o)
  {
    hide BaseOf, Decode, Level;
    var m: nat :| Level(pack, m)[i] == Some(o);
    LevelAt(pack, 0, i);
    n := m - 1;
    LevelAt(pack, n, i);
    base := BaseOf(pack, Level(pack, n), i).value;
  }

  lemma IdIs(pack: Pack, oids: seq<Oid>, resolved: map<Oid, Object>, i: nat, o: Object)
    requires Resolve.RightIds(pack, oids, resolved) && i < |pack.entries| && Is(pack, i, o)
    ensures |oids| == |pack.entries| && oids[i] == pack.codec.hash(o)
  {
  }

  lemma GenuineObject(codec: Codec, o: Object)
    ensures Genuine(codec, codec.hash(o), o.content)
  {
    assert Object(o.kind, o.content) == o;
  }

  /** A delta on an object applies to whatever content is genuinely that object's. */
  lemma DeltaApplies(wire: Wire, at: WireRef, b: Object, o: Object, base: Content)
    requires wire.Holds(at) && Injective(wire.codec) && wire.packs[at.pack].pack.codec == wire.codec
    requires Decode(wire.packs[at.pack].pack, at.at, OnObject(b)) == Some(o) && wire.OidAt(at) == wire.codec.hash(o)
    requires Genuine(wire.codec, wire.codec.hash(b), base)
    ensures DeltaOk(wire, at, base)
  {
    hide Genuine, Injective;
    GenuineObject(wire.codec, b);
    GenuineIsUnique(wire.codec, wire.codec.hash(b), base, b.content);
    GenuineObject(wire.codec, o);
  }

  lemma EntryIsOk(wire: Wire, repo: map<Oid, Object>, at: WireRef)
    requires wire.Holds(at) && Injective(wire.codec) && Indexed(wire)
    requires Identified(wire.codec, repo, wire.packs[at.pack])
    ensures EntryOk(wire, repo, at)
  {
    hide Level, Genuine, Injective, DeltaOk, Decode, Is, Resolve.RightIds;
    var pack, oids := wire.packs[at.pack].pack, wire.packs[at.pack].oids;
    var resolved :| Resolve.RightIds(pack, oids, resolved);
    assert Resolve.IsSomething(pack, at.at);
    var o :| Is(pack, at.at, o);
    IdIs(pack, oids, resolved, at.at, o);
    var n, b := MadeFrom(pack, at.at, o);
    match pack.entries[at.at].base {
      case Whole(_) => WholeIsOk(wire, at, o, b);
      case InPack(j) =>
        var q := Level(pack, n)[j].value;
        assert Is(pack, j, q) by { LevelIs(pack, n, j, q); }
        IdIs(pack, oids, resolved, j, q);
        forall base | Genuine(wire.codec, wire.OidAt(WireRef(at.pack, j)), base) ensures DeltaOk(wire, at, base) {
          DeltaApplies(wire, at, q, o, base);
        }
      case Ref(id) =>
        var q := RefersTo(wire, repo, at, n, id, resolved);
        forall base | Genuine(wire.codec, id, base) ensures DeltaOk(wire, at, base) {
          DeltaApplies(wire, at, q, o, base);
        }
    }
  }

  lemma LevelIs(pack: Pack, n: nat, j: nat, q: Object)
    requires j < |pack.entries| && Level(pack, n)[j] == Some(q)
    ensures Is(pack, j, q)
  {
    hide Level;
  }

  lemma WholeIsOk(wire: Wire, at: WireRef, o: Object, b: JobBase)
    requires wire.Holds(at) && wire.OidAt(at) == wire.codec.hash(o) && b.content.None?
    requires Decode(wire.packs[at.pack].pack, at.at, b) == Some(o)
    ensures WholeOk(wire, at)
  {
    hide Genuine;
    GenuineObject(wire.codec, o);
  }

  /** The object an id names is stored, or is an entry of the push. */
  lemma RefersTo(wire: Wire, repo: map<Oid, Object>, at: WireRef, n: nat, id: Oid, resolved: map<Oid, Object>)
    returns (q: Object)
    requires wire.Holds(at) && Indexed(wire)
    requires Identified(wire.codec, repo, wire.packs[at.pack])
    requires Resolve.RightIds(wire.packs[at.pack].pack, wire.packs[at.pack].oids, resolved)
    requires wire.BaseAt(at) == Ref(id)
    requires BaseOf(wire.packs[at.pack].pack, Level(wire.packs[at.pack].pack, n), at.at).Some?
    ensures wire.codec.hash(q) == id && (id in repo || id in wire.entryOf)
    ensures BaseOf(wire.packs[at.pack].pack, Level(wire.packs[at.pack].pack, n), at.at) == Some(OnObject(q))
  {
    hide Level, Resolve.AllAre, Is, Resolve.RightIds;
    var pack, oids := wire.packs[at.pack].pack, wire.packs[at.pack].oids;
    if id in pack.repo {
      q := pack.repo[id];
    } else {
      q := Find(pack, Level(pack, n), id).value;
      var j :| 0 <= j < |Level(pack, n)| && Level(pack, n)[j] == Some(q) && pack.codec.hash(q) == id;
      LevelIs(pack, n, j, q);
      IdIs(pack, oids, resolved, j, q);
      assert wire.Holds(WireRef(at.pack, j)) && wire.OidAt(WireRef(at.pack, j)) == id;
    }
  }

  /** A push every pack of which was identified can be rebuilt from. */
  lemma IdentifiedIsAccepted(wire: Wire, repo: map<Oid, Object>)
    requires Injective(wire.codec) && Indexed(wire) && Stored(wire.codec, repo)
    requires forall k :: 0 <= k < |wire.packs| ==> Identified(wire.codec, repo, wire.packs[k])
    ensures Accepted(wire, repo)
  {
    hide Identified, EntryOk, Injective, Indexed, Stored;
    forall at | wire.Holds(at) ensures EntryOk(wire, repo, at) {
      EntryIsOk(wire, repo, at);
    }
  }

  /** What rebuilding returns for an entry is the content it was identified with. */
  lemma RebuiltIsIdentified(wire: Wire, at: WireRef, resolved: map<Oid, Object>, o: Object, content: Content)
    requires Injective(wire.codec) && wire.Holds(at) && wire.packs[at.pack].pack.codec == wire.codec
    requires Resolve.RightIds(wire.packs[at.pack].pack, wire.packs[at.pack].oids, resolved)
    requires Is(wire.packs[at.pack].pack, at.at, o) && Genuine(wire.codec, wire.OidAt(at), content)
    ensures content == o.content
  {
    hide Is, Injective, Genuine, Resolve.RightIds;
    IdIs(wire.packs[at.pack].pack, wire.packs[at.pack].oids, resolved, at.at, o);
    GenuineObject(wire.codec, o);
    GenuineIsUnique(wire.codec, wire.OidAt(at), content, o.content);
  }

  // ----------------------------------------------- an accepted push that sticks

  /** Deltas that carry their whole result. */
  function Verbatim(hash: Object -> Oid): Codec
  {
    Codec((base, delta) => Some(delta), o => true, hash)
  }

  const First := Object(Blob, [0])
  const Second := Object(Blob, [1])

  /** Two deltas that name each other, the second's object already stored. */
  function Mutual(hash: Object -> Oid): Pack
  {
    Pack([Entry(Ref(hash(Second)), 1), Entry(Ref(hash(First)), 1)],
         i => Some(if i == 0 then [0] else [1]),
         map[hash(Second) := Second], Verbatim(hash))
  }

  function MutualWire(hash: Object -> Oid): Wire
  {
    Wire([WirePack(Mutual(hash), [hash(First), hash(Second)])],
         map[hash(First) := WireRef(0, 0), hash(Second) := WireRef(0, 1)], Verbatim(hash))
  }

  lemma MutualLevels(hash: Object -> Oid)
    requires Injective(Verbatim(hash))
    ensures Is(Mutual(hash), 0, First) && Is(Mutual(hash), 1, Second)
  {
    var pack := Mutual(hash);
    LevelAt(pack, 0, 0);
    assert Level(pack, 1)[0] == Some(First);
    assert hash(First) != hash(Second);
    LevelAt(pack, 1, 1);
    assert Named(pack, Level(pack, 1), hash(First), First);
    FindIsNamed(pack, Level(pack, 1), hash(First), First);
    assert Level(pack, 2)[1] == Some(Second);
  }

  /** Identification accepts the pair, taking the second's object from the
      repository; rebuilding the first follows the pack instead, comes back to
      it by its own id, and finds no such object stored. */
  lemma AcceptedButStuck(hash: Object -> Oid, lru: Lru)
    requires Injective(Verbatim(hash))
    ensures Resolve.AllAre(Mutual(hash))
    ensures Accepted(MutualWire(hash), Mutual(hash).repo)
    ensures Stuck(MutualWire(hash), Mutual(hash).repo, lru, WireRef(0, 0), hash(First)) <==>
      !Cached(lru, hash(First)) && !Cached(lru, hash(Second))
  {
    var pack, wire := Mutual(hash), MutualWire(hash);
    assert hash(First) != hash(Second);
    MutualLevels(hash);
    MutualIsIdentified(hash);
    assert Stored(wire.codec, pack.repo);
    MutualIsIndexed(hash);
    IdentifiedIsAccepted(wire, pack.repo);
    var p := [WireRef(0, 0), WireRef(0, 1)];
    assert Hops(wire, p, 0);
    assert p[0] in p;
    assert Returns(wire, WireRef(0, 0), hash(First), p);
    if Cached(lru, hash(Second)) {
      WarmIsNotStuck(wire, pack.repo, lru, WireRef(0, 0), p, hash(First));
    } else {
      assert Cold(wire, lru, p);
    }
  }

  lemma MutualIsIndexed(hash: Object -> Oid)
    requires hash(First) != hash(Second)
    ensures Indexed(MutualWire(hash))
  {
    var wire := MutualWire(hash);
    forall at | wire.Holds(at) ensures at == WireRef(0, 0) || at == WireRef(0, 1) {
    }
  }

  lemma MutualIsIdentified(hash: Object -> Oid)
    requires Injective(Verbatim(hash)) && Is(Mutual(hash), 0, First) && Is(Mutual(hash), 1, Second)
    ensures Resolve.AllAre(Mutual(hash))
    ensures Identified(Verbatim(hash), Mutual(hash).repo, MutualWire(hash).packs[0])
  {
    hide Is;
    var pack, oids := Mutual(hash), [hash(First), hash(Second)];
    assert Resolve.IsSomething(pack, 0) && Resolve.IsSomething(pack, 1);
    assert hash(First) != hash(Second) by { assert Verbatim(hash).hash(First) == hash(First); }
    var resolved := map[hash(First) := First, hash(Second) := Second];
    forall i, o | 0 <= i < |oids| && Is(pack, i, o)
      ensures oids[i] == pack.codec.hash(o) && oids[i] in resolved && resolved[oids[i]] == o
    {
      IsUnique(pack, i, if i == 0 then First else Second, o);
    }
    assert Resolve.RightIds(pack, oids, resolved);
  }
}
