/** What classification stores of the client's bytes: what they are in the packs
    received, and what a reader makes of them.
*/
module ClassifyBytes {
  import opened Objects
  import opened PackContent
  import opened Rebuild
  import opened Chains
  import opened Classify

  type Entry = Chains.Entry

  /** The id an entry was encoded against, if it is a delta. */
  function DeltaBase(wire: Rebuild.Wire, at: WireRef): Option<Oid>
    requires wire.Holds(at)
    requires wire.BaseAt(at).InPack? ==> wire.Holds(WireRef(at.pack, wire.BaseAt(at).at))
  {
    match wire.BaseAt(at)
    case Whole(_) => None
    case InPack(j) => Some(wire.OidAt(WireRef(at.pack, j)))
    case Ref(id) => Some(id)
  }

  /** Every object received, where it sits and what it was encoded against. */
  function SentOf(wire: Rebuild.Wire, ghost repo: map<Oid, Object>): map<Oid, Sent>
    requires Accepted(wire, repo)
  {
    map oid | oid in wire.entryOf ::
      InPackIsHeld(wire, repo, oid);
      Sent(wire.entryOf[oid], DeltaBase(wire, wire.entryOf[oid]))
  }

  lemma InPackIsHeld(wire: Rebuild.Wire, repo: map<Oid, Object>, oid: Oid)
    requires Accepted(wire, repo) && oid in wire.entryOf
    ensures var at := wire.entryOf[oid];
      wire.Holds(at) && (wire.BaseAt(at).InPack? ==> wire.Holds(WireRef(at.pack, wire.BaseAt(at).at)))
  {
    hide Injective, Rebuild.Stored, Genuine;
    AcceptedAt(wire, repo, wire.entryOf[oid]);
  }

  /** The bytes at `at` are a delta that makes `oid` of `base`. */
  ghost predicate MakesFrom(wire: Rebuild.Wire, at: WireRef, base: Content, oid: Oid)
    requires wire.Holds(at)
  {
    && wire.InflateAt(at).Some?
    && wire.codec.apply(base, wire.InflateAt(at).value).Some?
    && Genuine(wire.codec, oid, wire.codec.apply(base, wire.InflateAt(at).value).value)
  }

  /** The bytes a pack entry copies make its object: on their own if it has no base,
      and otherwise from the content of the object its base names. */
  ghost predicate Makes(wire: Rebuild.Wire, e: Entry)
  {
    e.source.Wire? ==>
      var at := e.source.at;
      && wire.Holds(at)
      && match e.base
         case None => wire.InflateAt(at).Some? && Genuine(wire.codec, e.oid, wire.InflateAt(at).value)
         case Some(b) => forall base :: Genuine(wire.codec, b, base) ==> MakesFrom(wire, at, base, e.oid)
  }

  lemma SentMakes(wire: Rebuild.Wire, repo: map<Oid, Object>, planned: Entry, e: Entry)
    requires Accepted(wire, repo) && FromClient(SentOf(wire, repo), planned, e)
    ensures Makes(wire, e)
  {
    hide Accepted, EntryOk, Makes;
    SentIs(wire, repo, e.oid);
    EntryMakes(wire, repo, wire.entryOf[e.oid], e);
  }

  lemma SentIs(wire: Rebuild.Wire, repo: map<Oid, Object>, oid: Oid)
    requires Accepted(wire, repo) && oid in wire.entryOf
    ensures var at := wire.entryOf[oid];
      && wire.Holds(at) && wire.OidAt(at) == oid && EntryOk(wire, repo, at)
      && (wire.BaseAt(at).InPack? ==> wire.Holds(WireRef(at.pack, wire.BaseAt(at).at)))
      && SentOf(wire, repo)[oid] == Sent(at, DeltaBase(wire, at))
  {
    hide Injective, Rebuild.Stored, EntryOk, Accepted, DeltaBase;
    IndexedAt(wire, repo, oid);
    AcceptedAt(wire, repo, wire.entryOf[oid]);
    InPackIsHeld(wire, repo, oid);
  }

  lemma IndexedAt(wire: Rebuild.Wire, repo: map<Oid, Object>, oid: Oid)
    requires Accepted(wire, repo) && oid in wire.entryOf
    ensures wire.Holds(wire.entryOf[oid]) && wire.OidAt(wire.entryOf[oid]) == oid
  {
    hide Injective, Rebuild.Stored, EntryOk;
  }

  lemma EntryMakes(wire: Rebuild.Wire, repo: map<Oid, Object>, at: WireRef, e: Entry)
    requires wire.Holds(at) && EntryOk(wire, repo, at) && wire.OidAt(at) == e.oid && e.source == Source.Wire(at)
    requires wire.BaseAt(at).InPack? ==> wire.Holds(WireRef(at.pack, wire.BaseAt(at).at))
    requires e.base == DeltaBase(wire, at)
    ensures Makes(wire, e)
  {
    hide Genuine;
    if e.base.Some? {
      forall base | Genuine(wire.codec, e.base.value, base) ensures MakesFrom(wire, at, base, e.oid) {
        assert DeltaOk(wire, at, base);
      }
    }
  }

  /** Every entry stored with the client's bytes is made by them: an object sent is
      looked up where it was received, and kept against the base it was sent against. */
  lemma ClassifiedMakes(wire: Rebuild.Wire, repo: map<Oid, Object>, packs: map<Oid, seq<Entry>>, older: map<Oid, Oid>,
                        proven: set<(Oid, Oid)>, c: Oid, pack: seq<Entry>, e: Entry)
    requires Accepted(wire, repo) && c in packs && forall k :: 0 <= k < |packs[c]| ==> packs[c][k].source == Encoded
    requires Classified(packs, SentOf(wire, repo), older, proven, c, pack) && e in pack
    ensures Makes(wire, e)
  {
    hide Accepted, Makes, Decided;
    var sent := SentOf(wire, repo);
    assert FromPlan(packs, sent, older, proven, c, e);
    var k :| 0 <= k < |packs[c]| && Decided(packs, sent, older, proven, c, packs[c][k], e);
    DecidedOid(packs, sent, older, proven, c, packs[c][k], e);
    if FromClient(sent, packs[c][k], e) {
      SentMakes(wire, repo, packs[c][k], e);
    } else {
      EncodedMakes(wire, e);
    }
  }

  lemma EncodedMakes(wire: Rebuild.Wire, e: Entry)
    requires e.source == Encoded
    ensures Makes(wire, e)
  {
  }

  /** And so is every entry left once chains are bounded: a base taken away takes the
      delta's bytes with it. */
  lemma BoundedMakes(wire: Rebuild.Wire, pack: seq<Entry>, left: seq<Entry>, e: Entry)
    requires Cuts(pack, left) && e in left && forall x :: x in pack ==> Makes(wire, x)
    ensures Makes(wire, e)
  {
    hide Makes;
    var k :| 0 <= k < |left| && left[k] == e;
    assert pack[k] in pack;
    if e != pack[k] {
      EncodedOrSame(pack[k]);
      EncodedMakes(wire, e);
    }
  }

  lemma EncodedOrSame(e: Entry)
    ensures Cut(e) == e || Cut(e).source == Encoded
  {
  }

  /** Whatever the client sent whole is stored from the client's own bytes. */
  lemma WholeIsCopied(wire: Rebuild.Wire, repo: map<Oid, Object>, packs: map<Oid, seq<Entry>>, older: map<Oid, Oid>,
                      proven: set<(Oid, Oid)>, c: Oid, pack: seq<Entry>, e: Entry)
    requires Accepted(wire, repo) && c in packs && Classified(packs, SentOf(wire, repo), older, proven, c, pack)
    requires e in pack && e.oid in wire.entryOf && wire.Holds(wire.entryOf[e.oid])
    requires wire.BaseAt(wire.entryOf[e.oid]).Whole?
    ensures e.base == None && e.source.Wire? && wire.Holds(e.source.at) && wire.OidAt(e.source.at) == e.oid
  {
    hide Served, Accepted, EntryOk, SentOf;
    var sent := SentOf(wire, repo);
    SentIs(wire, repo, e.oid);
    assert FromPlan(packs, sent, older, proven, c, e);
    var k :| 0 <= k < |packs[c]| && Decided(packs, sent, older, proven, c, packs[c][k], e);
    DecidedOid(packs, sent, older, proven, c, packs[c][k], e);
    assert e.oid in sent by { SentAll(wire, repo); }
  }

  lemma SentAll(wire: Rebuild.Wire, repo: map<Oid, Object>)
    requires Accepted(wire, repo)
    ensures SentOf(wire, repo).Keys == wire.entryOf.Keys
  {
    hide Accepted;
  }
}
