/** Locating a pack's entries, and resolving relative delta bases to positions. */
module PackScan {
  import opened Objects
  import opened PackContent

  const MAX_PACK_OBJECTS: nat := 10_000_000
  const MAX_OBJECT_BYTES: nat := 100 * 1024 * 1024

  /** An entry's header as it is on the wire. */
  datatype Header = Full(kind: Kind) | OfsDelta(distance: nat) | RefDelta(id: Oid)

  /** An entry as the reader meets it: where it starts, its header and its inflated size. */
  datatype Met = Met(start: nat, header: Header, size: nat)

  datatype Scan = Located(entries: seq<Entry>) | TooManyObjects | TooLarge(at: nat) | NoBase(at: nat)

  /** The reader only moves forward. */
  ghost predicate InOrder(met: seq<Met>)
  {
    forall i, j :: 0 <= i < j < |met| ==> met[i].start < met[j].start
  }

  /** Entry `j` starts where entry `i`'s header points. */
  ghost predicate BasedOn(met: seq<Met>, i: nat, j: nat)
    requires i < |met| && met[i].header.OfsDelta?
  {
    j < i && met[j].start + met[i].header.distance == met[i].start
  }

  ghost predicate Resolves(met: seq<Met>, i: nat)
    requires i < |met|
  {
    met[i].header.OfsDelta? ==> exists j: nat :: BasedOn(met, i, j)
  }

  /** The entry says what its header says, a distance as the earlier entry it reaches. */
  ghost predicate Says(met: seq<Met>, i: nat, e: Entry)
    requires i < |met|
  {
    && e.size == met[i].size
    && match met[i].header
       case Full(kind) => e.base == Whole(kind)
       case OfsDelta(_) => e.base.InPack? && BasedOn(met, i, e.base.at)
       case RefDelta(id) => e.base == Ref(id)
  }

  /** Succeeds exactly when no limit is passed and every relative base is an
      earlier entry; deltas by position then point backwards. */
  method LocateEntries(met: seq<Met>) returns (r: Scan)
    requires InOrder(met)
    ensures r.Located? <==>
      |met| <= MAX_PACK_OBJECTS && forall i :: 0 <= i < |met| ==> met[i].size <= MAX_OBJECT_BYTES && Resolves(met, i)
    ensures r.Located? ==> |r.entries| == |met| && forall i :: 0 <= i < |met| ==> Says(met, i, r.entries[i])
    ensures r.TooLarge? ==> r.at < |met| && met[r.at].size > MAX_OBJECT_BYTES
    ensures r.NoBase? ==> r.at < |met| && !Resolves(met, r.at)
  {
    if |met| > MAX_PACK_OBJECTS {
      return TooManyObjects;
    }
    var entries: seq<Entry> := [];
    var byOffset: map<nat, nat> := map[];
    var i := 0;
    while i < |met|
      invariant i <= |met| && |entries| == i
      invariant forall k :: 0 <= k < i ==>
        met[k].size <= MAX_OBJECT_BYTES && Resolves(met, k) && Says(met, k, entries[k])
      invariant forall k :: 0 <= k < i ==> met[k].start in byOffset
      invariant forall o :: o in byOffset ==> byOffset[o] < i && met[byOffset[o]].start == o
    {
      if met[i].size > MAX_OBJECT_BYTES {
        return TooLarge(i);
      }
      var base;
      match met[i].header {
        case Full(kind) => base := Whole(kind);
        case OfsDelta(distance) =>
          if distance > met[i].start || met[i].start - distance !in byOffset {
            assert forall j: nat :: BasedOn(met, i, j) ==> met[j].start in byOffset;
            return NoBase(i);
          }
          base := InPack(byOffset[met[i].start - distance]);
          assert BasedOn(met, i, base.at);
        case RefDelta(id) => base := Ref(id);
      }
      byOffset := byOffset[met[i].start := i];
      entries := entries + [Entry(base, met[i].size)];
      i := i + 1;
    }
    r := Located(entries);
  }
}
