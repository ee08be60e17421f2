/** Pack facts as bytes, and reading part of them back. */
module PackBytes {
  import opened Objects
  import opened Stride
  import opened Frames
  import opened PackIndexes

  const RECORD: nat := 60
  const PRESENT: int := 1

  /** How tier-two segments are framed. */
  const PACKS: Layout := Layout([67, 73, 88, 50], RECORD, 1)

  /** A node whose fields fit the bytes they are given. */
  ghost predicate Fitting(n: PackNode)
  {
    && HoldsIn(n.entryLen, 8) && HoldsIn(n.blobOffset, 8) && HoldsIn(n.segmentId, 16)
    && HoldsIn(n.baseOffset, 8) && HoldsIn(n.imageLen, 8)
  }

  ghost predicate AllFitting(slots: seq<Option<PackNode>>)
  {
    forall k :: 0 <= k < |slots| && slots[k].Some? ==> Fitting(slots[k].value)
  }

  // -------------------------------------------------------------- one record

  /** A hole is sixty zeros; a node its fields, where its bitmaps went, and a flag. */
  function RecordBytes(slot: Option<PackNode>, treesAt: int, blobsAt: int): (b: seq<int>)
    ensures |b| == RECORD
  {
    if slot.None? then seq(RECORD, _ => 0)
    else
      Le(slot.value.entryLen, 8) + Le(slot.value.blobOffset, 8) + Le(slot.value.segmentId, 16)
      + Le(slot.value.baseOffset, 8) + Le(slot.value.imageLen, 8) + Le(treesAt, 4) + Le(blobsAt, 4) + Le(PRESENT, 4)
  }

  datatype SlotRead = Slot(slot: Option<PackNode>) | Stray(at: int)

  /** A record's slot, its bitmaps fetched from the heap: a node, a hole, or neither. */
  function ReadRecord(bytes: seq<int>, heap: seq<int>): SlotRead
  {
    if Field(bytes, 56, 4) % 2 == 0 then Slot(None)
    else
      var treesAt, blobsAt := Field(bytes, 48, 4), Field(bytes, 52, 4);
      if Fetch(treesAt, heap).None? then Stray(treesAt)
      else if Fetch(blobsAt, heap).None? then Stray(blobsAt)
      else
        Slot(Some(PackNode(Field(bytes, 0, 8), Field(bytes, 8, 8), Field(bytes, 16, 16), Field(bytes, 32, 8),
                           Field(bytes, 40, 8), Fetch(treesAt, heap).value, Fetch(blobsAt, heap).value)))
  }

  lemma {:induction false} ZerosAreZero(n: nat)
    ensures Unle(seq(n, _ => 0)) == 0
  {
    if n > 0 {
      ZerosAreZero(n - 1);
      var zeros := seq(n, _ => 0);
      assert zeros[1..] == seq(n - 1, _ => 0);
    }
  }

  lemma HoleReads(heap: seq<int>)
    ensures ReadRecord(RecordBytes(None, NONE, NONE), heap) == Slot(None)
  {
    hide Unle;
    var bytes := RecordBytes(None, NONE, NONE);
    assert bytes[56..60] == seq(4, _ => 0);
    ZerosAreZero(4);
  }

  /** The fields of a record, each in its own place. */
  lemma FieldsRead(n: PackNode, treesAt: int, blobsAt: int)
    requires Fitting(n) && 0 <= treesAt <= NONE && 0 <= blobsAt <= NONE
    ensures var b := RecordBytes(Some(n), treesAt, blobsAt);
      && Field(b, 0, 8) == n.entryLen && Field(b, 8, 8) == n.blobOffset && Field(b, 16, 16) == n.segmentId
      && Field(b, 32, 8) == n.baseOffset && Field(b, 40, 8) == n.imageLen
      && Field(b, 48, 4) == treesAt && Field(b, 52, 4) == blobsAt && Field(b, 56, 4) == PRESENT
  {
    hide Le, Unle, HoldsIn, Field;
    var b := RecordBytes(Some(n), treesAt, blobsAt);
    var f0, f1, f2, f3 := Le(n.entryLen, 8), Le(n.blobOffset, 8), Le(n.segmentId, 16), Le(n.baseOffset, 8);
    var f4, f5, f6, f7 := Le(n.imageLen, 8), Le(treesAt, 4), Le(blobsAt, 4), Le(PRESENT, 4);
    WordHolds(treesAt);
    WordHolds(blobsAt);
    WordHolds(PRESENT);
    var p1, p2, p3 := f0, f0 + f1, f0 + f1 + f2;
    var p4, p5, p6, p7 := p3 + f3, p3 + f3 + f4, p3 + f3 + f4 + f5, p3 + f3 + f4 + f5 + f6;
    assert b == p7 + f7 + [];
    assert b == p6 + f6 + f7;
    assert b == p5 + f5 + (f6 + f7);
    assert b == p4 + f4 + (f5 + f6 + f7);
    assert b == p3 + f3 + (f4 + f5 + f6 + f7);
    assert b == p2 + f2 + (f3 + f4 + f5 + f6 + f7);
    assert b == p1 + f1 + (f2 + f3 + f4 + f5 + f6 + f7);
    assert b == [] + f0 + (f1 + f2 + f3 + f4 + f5 + f6 + f7);
    FieldAt([], n.entryLen, 8, f1 + f2 + f3 + f4 + f5 + f6 + f7);
    FieldAt(p1, n.blobOffset, 8, f2 + f3 + f4 + f5 + f6 + f7);
    FieldAt(p2, n.segmentId, 16, f3 + f4 + f5 + f6 + f7);
    FieldAt(p3, n.baseOffset, 8, f4 + f5 + f6 + f7);
    FieldAt(p4, n.imageLen, 8, f5 + f6 + f7);
    FieldAt(p5, treesAt, 4, f6 + f7);
    FieldAt(p6, blobsAt, 4, f7);
    FieldAt(p7, PRESENT, 4, []);
  }

  /** A record reads as its node, given a heap that has its bitmaps. */
  lemma RecordReads(n: PackNode, treesAt: int, blobsAt: int, heap: seq<int>)
    requires Fitting(n) && 0 <= treesAt <= NONE && 0 <= blobsAt <= NONE
    requires Fetch(treesAt, heap) == Some(n.trees) && Fetch(blobsAt, heap) == Some(n.blobs)
    ensures ReadRecord(RecordBytes(Some(n), treesAt, blobsAt), heap) == Slot(Some(n))
  {
    hide Field, Fetch, RecordBytes;
    FieldsRead(n, treesAt, blobsAt);
  }

  // --------------------------------------------------------------- the heap

  /** The heap once a slot's two bitmaps are stowed in it. */
  function StowSlot(slot: Option<PackNode>, heap: seq<int>): seq<int>
  {
    if slot.None? then heap else Stow(slot.value.blobs, Stow(slot.value.trees, heap).1).1
  }

  function HeapOf(slots: seq<Option<PackNode>>): seq<int>
  {
    if slots == [] then [] else StowSlot(slots[|slots| - 1], HeapOf(slots[..|slots| - 1]))
  }

  lemma HeapStep(slots: seq<Option<PackNode>>, k: nat)
    requires k < |slots|
    ensures HeapOf(slots[..k + 1]) == StowSlot(slots[k], HeapOf(slots[..k]))
  {
    hide StowSlot;
    assert slots[..k + 1][..k] == slots[..k];
  }

  lemma StowGrows(blob: seq<int>, heap: seq<int>)
    ensures heap <= Stow(blob, heap).1
  {
  }

  lemma StowSlotGrows(slot: Option<PackNode>, heap: seq<int>)
    ensures heap <= StowSlot(slot, heap)
  {
    hide Stow;
    if slot.Some? {
      StowGrows(slot.value.trees, heap);
      StowGrows(slot.value.blobs, Stow(slot.value.trees, heap).1);
    }
  }

  /** A later stow keeps what an earlier one wrote. */
  lemma {:induction false} HeapGrows(slots: seq<Option<PackNode>>, k: nat, n: nat)
    requires k <= n <= |slots|
    ensures HeapOf(slots[..k]) <= HeapOf(slots[..n])
    decreases n
  {
    hide HeapOf, StowSlot;
    if k < n {
      HeapGrows(slots, k, n - 1);
      HeapStep(slots, n - 1);
      StowSlotGrows(slots[n - 1], HeapOf(slots[..n - 1]));
    }
  }

  /** Where slot `k`'s bitmaps are stowed. */
  function TreesAt(slot: Option<PackNode>, heap: seq<int>): int
  {
    if slot.None? then NONE else Stow(slot.value.trees, heap).0
  }

  function BlobsAt(slot: Option<PackNode>, heap: seq<int>): int
  {
    if slot.None? then NONE else Stow(slot.value.blobs, Stow(slot.value.trees, heap).1).0
  }

  function BytesOf(slot: Option<PackNode>, heap: seq<int>): (b: seq<int>)
    ensures |b| == RECORD
  {
    RecordBytes(slot, TreesAt(slot, heap), BlobsAt(slot, heap))
  }

  lemma StowIsCounted(blob: seq<int>, heap: seq<int>)
    requires |Stow(blob, heap).1| <= NONE
    ensures Stowable(blob, heap) && 0 <= Stow(blob, heap).0 <= NONE
  {
    hide Le;
  }

  /** A slot reads back from its record and any heap that grew from the one it
      was stowed in, while that can be counted. */
  lemma SlotReads(slot: Option<PackNode>, heap: seq<int>, whole: seq<int>)
    requires slot.Some? ==> Fitting(slot.value)
    requires StowSlot(slot, heap) <= whole && |whole| <= NONE
    ensures ReadRecord(BytesOf(slot, heap), whole) == Slot(slot)
  {
    hide Stow, Fetch, RecordBytes, ReadRecord, Fitting, Stowable;
    if slot.None? {
      HoleReads(whole);
    } else {
      var n := slot.value;
      var mid := Stow(n.trees, heap).1;
      var after := Stow(n.blobs, mid).1;
      StowGrows(n.blobs, mid);
      StowIsCounted(n.trees, heap);
      StowIsCounted(n.blobs, mid);
      FetchIsStowed(n.trees, heap, whole[|mid|..]);
      FetchIsStowed(n.blobs, mid, whole[|after|..]);
      assert mid + whole[|mid|..] == whole && after + whole[|after|..] == whole;
      RecordReads(n, TreesAt(slot, heap), BlobsAt(slot, heap), whole);
    }
  }

  // --------------------------------------------------------------- encoding

  function RecordsOf(slots: seq<Option<PackNode>>): seq<int>
  {
    if slots == [] then []
    else RecordsOf(slots[..|slots| - 1]) + BytesOf(slots[|slots| - 1], HeapOf(slots[..|slots| - 1]))
  }

  lemma RecordsStep(slots: seq<Option<PackNode>>, k: nat)
    requires k < |slots|
    ensures RecordsOf(slots[..k + 1]) == RecordsOf(slots[..k]) + BytesOf(slots[k], HeapOf(slots[..k]))
  {
    hide BytesOf, HeapOf;
    assert slots[..k + 1][..k] == slots[..k];
  }

  lemma {:induction false} RecordsSize(slots: seq<Option<PackNode>>, n: nat)
    requires n <= |slots|
    ensures |RecordsOf(slots[..n])| == RECORD * n
  {
    hide BytesOf, HeapOf, RecordsOf;
    if n > 0 {
      RecordsSize(slots, n - 1);
      RecordsStep(slots, n - 1);
    } else {
      NoRecords();
    }
  }

  lemma NoRecords()
    ensures RecordsOf([]) == [] && HeapOf([]) == []
  {
  }

  /** Record `k` is in its own place. */
  lemma {:induction false} RecordAt(slots: seq<Option<PackNode>>, k: nat, n: nat)
    requires k < n <= |slots|
    ensures |RecordsOf(slots[..n])| == RECORD * n && RECORD * k + RECORD <= RECORD * n
    ensures RecordsOf(slots[..n])[RECORD * k..RECORD * k + RECORD] == BytesOf(slots[k], HeapOf(slots[..k]))
    decreases n
  {
    hide BytesOf, HeapOf, RecordsOf;
    RecordsSize(slots, n);
    RecordsSize(slots, n - 1);
    RecordsStep(slots, n - 1);
    if k < n - 1 {
      RecordAt(slots, k, n - 1);
    }
  }

  function HeaderOf(s: Strided<PackNode>): Header
  {
    Header(if s.first < 0 then 0 else s.first, |s.slots|, |HeapOf(s.slots)|)
  }

  /** The bytes are the array's: a header, sixty bytes a record, and the bitmaps. */
  ghost predicate Written(bytes: seq<int>, s: Strided<PackNode>)
  {
    bytes == WriteHeader(HeaderOf(s), PACKS) + RecordsOf(s.slots) + HeapOf(s.slots)
  }

  method Encode(s: Strided<PackNode>) returns (bytes: seq<int>)
    ensures Written(bytes, s)
  {
    hide RecordsOf, HeapOf, BytesOf, WriteHeader, StowSlot;
    var heap: seq<int> := [];
    var records: seq<int> := [];
    NoRecords();
    var k := 0;
    assert s.slots[..0] == [];
    while k < |s.slots|
      invariant k <= |s.slots| && heap == HeapOf(s.slots[..k]) && records == RecordsOf(s.slots[..k])
    {
      RecordsStep(s.slots, k);
      HeapStep(s.slots, k);
      records := records + BytesOf(s.slots[k], heap);
      heap := StowSlot(s.slots[k], heap);
      k := k + 1;
    }
    assert s.slots[..k] == s.slots;
    bytes := WriteHeader(HeaderOf(s), PACKS) + records + heap;
  }

  // --------------------------------------------------------------- decoding

  datatype Decoded = Read(facts: Strided<PackNode>) | Refused(framing: Framing) | StrayBitmap(at: int)

  /** Pack facts whose fields fit their bytes, at keys a catalog can name. */
  ghost predicate Storable(s: Strided<PackNode>)
  {
    AllFitting(s.slots) && 0 <= s.first <= I64_MAX
  }

  lemma BodyIsSized(s: Strided<PackNode>)
    ensures |RecordsOf(s.slots) + HeapOf(s.slots)| == BodySize(HeaderOf(s), PACKS)
    ensures |RecordsOf(s.slots)| == RECORD * |s.slots|
  {
    hide RecordsOf, HeapOf;
    assert s.slots[..|s.slots|] == s.slots;
    RecordsSize(s.slots, |s.slots|);
  }

  /** Record `k` of a body reads as slot `k`. */
  lemma BodyReads(s: Strided<PackNode>, k: nat)
    requires Storable(s) && Countable(HeaderOf(s)) && k < |s.slots|
    ensures var body := RecordsOf(s.slots) + HeapOf(s.slots);
      && RECORD * k + RECORD <= |body| && RECORD * |s.slots| <= |body|
      && ReadRecord(body[RECORD * k..RECORD * k + RECORD], body[RECORD * |s.slots|..]) == Slot(s.slots[k])
  {
    hide RecordsOf, HeapOf, BytesOf, ReadRecord, StowSlot, Fitting;
    var n := |s.slots|;
    assert s.slots[..n] == s.slots;
    RecordAt(s.slots, k, n);
    HeapGrows(s.slots, k + 1, n);
    HeapStep(s.slots, k);
    SlotReads(s.slots[k], HeapOf(s.slots[..k]), HeapOf(s.slots));
    var body := RecordsOf(s.slots) + HeapOf(s.slots);
    assert body[RECORD * k..RECORD * k + RECORD] == RecordsOf(s.slots)[RECORD * k..RECORD * k + RECORD];
    assert body[RECORD * n..] == HeapOf(s.slots);
  }

  /** Reads the pack facts a range of seqs covers.

      Whatever the bytes, what is read is canonical. The bytes of an array read as
      that array restricted to the range, exactly when its records and heap can be
      counted in thirty-two bits; past that they are refused for their length.
  */
  method DecodeRange(bytes: seq<int>, lo: int, hi: int, ghost s: Strided<PackNode>) returns (d: Decoded)
    ensures d.Read? ==> Canonical(d.facts)
    ensures Written(bytes, s) && Storable(s) && Countable(HeaderOf(s)) ==> d.Read? && Restricts(s, lo, hi, d.facts)
    ensures Written(bytes, s) && 0 <= s.first <= I64_MAX && !Countable(HeaderOf(s)) ==> d == Refused(Truncated)
  {
    hide RecordsOf, HeapOf, WriteHeader, ReadHeader, ReadRecord, AllFitting, Countable, Canonical, Restricts;
    ghost var good := Written(bytes, s) && Storable(s);
    var framing := ReadHeader(bytes, PACKS);
    if Written(bytes, s) && 0 <= s.first <= I64_MAX {
      BodyIsSized(s);
      HeaderReadsBack(HeaderOf(s), PACKS, RecordsOf(s.slots) + HeapOf(s.slots));
      assert WriteHeader(HeaderOf(s), PACKS) + RecordsOf(s.slots) + HeapOf(s.slots)
          == WriteHeader(HeaderOf(s), PACKS) + (RecordsOf(s.slots) + HeapOf(s.slots));
    }
    if !framing.Framed? {
      return Refused(framing);
    }
    var header := framing.header;
    FramedIsSized(bytes, PACKS);
    var body := bytes[HEADER..];
    assert good ==> body == RecordsOf(s.slots) + HeapOf(s.slots) && header == HeaderOf(s) && Countable(header);
    var heap := body[RECORD * header.records..];
    var slice := SliceOf(header.first, header.records, lo, hi);
    if slice.None? {
      NothingRead(s, lo, hi);
      return Read(Strided(0, []));
    }
    var from, upto := slice.value.0, slice.value.1;
    var slots: seq<Option<PackNode>> := [];
    var k := from;
    while k < upto
      invariant from <= k <= upto && |slots| == k - from
      invariant good ==> slots == s.slots[from..k]
    {
      RecordEnds(k, header.records, |body|);
      var slot := ReadRecord(body[RECORD * k..RECORD * k + RECORD], heap);
      if good {
        BodyReads(s, k);
        assert s.slots[from..k + 1] == s.slots[from..k] + [s.slots[k]];
      }
      if slot.Stray? {
        return StrayBitmap(slot.at);
      }
      slots := slots + [slot.slot];
      k := k + 1;
    }
    var facts := Trimmed(header.first + from, slots);
    if good {
      RestrictedSlice(s, lo, hi, from, upto, facts);
    }
    d := Read(facts);
  }

  lemma RecordEnds(k: nat, records: nat, size: nat)
    requires k < records && RECORD * records <= size
    ensures RECORD * k + RECORD <= size
  {
  }

  lemma NothingRead(s: Strided<PackNode>, lo: int, hi: int)
    ensures Canonical(Strided<PackNode>.Strided(0, []))
    ensures SliceOf(HeaderOf(s).first, |s.slots|, lo, hi).None? && s.first >= 0 ==> Restricts(s, lo, hi, Strided(0, []))
  {
    hide HeapOf;
  }

  lemma FramedIsSized(bytes: seq<int>, layout: Layout)
    requires ReadHeader(bytes, layout).Framed?
    ensures |bytes| == HEADER + BodySize(ReadHeader(bytes, layout).header, layout)
    ensures ReadHeader(bytes, layout).header.records * layout.record <= |bytes| - HEADER
  {
  }
}
