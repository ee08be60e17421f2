/** The bytes themselves, place by place, as another reader of the format would take them. */
module Formats {
  import opened Objects
  import opened Stride
  import opened CommitIndexes
  import opened PackIndexes
  import opened Frames
  import Graph = CommitBytes
  import Packs = PackBytes

  /** Byte `i` of a number, the lowest being byte zero. */
  function Byte(v: int, i: nat): int
    decreases i
  {
    if i == 0 then v % 256 else Byte(v / 256, i - 1)
  }

  /** `v` sits at `at`, in `n` bytes, lowest first. */
  ghost predicate Sits(bytes: seq<int>, at: nat, v: int, n: nat)
  {
    at + n <= |bytes| && forall i :: 0 <= i < n ==> bytes[at + i] == Byte(v, i)
  }

  lemma {:induction false} LeIsBytes(v: int, n: nat, i: nat)
    requires i < n
    ensures Le(v, n)[i] == Byte(v, i)
    decreases i
  {
    if i > 0 {
      LeIsBytes(v / 256, n - 1, i - 1);
    }
  }

  lemma LeSits(pre: seq<int>, v: int, n: nat, post: seq<int>)
    ensures Sits(pre + Le(v, n) + post, |pre|, v, n)
  {
    hide Le;
    var bytes := pre + Le(v, n) + post;
    forall i | 0 <= i < n ensures bytes[|pre| + i] == Byte(v, i) {
      LeIsBytes(v, n, i);
    }
  }

  /** What sits in a part sits in the whole. */
  lemma SitsWithin(pre: seq<int>, part: seq<int>, post: seq<int>, at: nat, v: int, n: nat)
    requires Sits(part, at, v, n)
    ensures Sits(pre + part + post, |pre| + at, v, n)
  {
  }

  // ------------------------------------------------------------- the header

  /** Four bytes of name, the version and three zeros; then the first key in eight
      bytes, and the two counts in four each, held at the greatest word. */
  ghost predicate HeaderSits(bytes: seq<int>, magic: seq<int>, first: int, records: nat, tail: nat)
  {
    && |bytes| >= 24 && bytes[..4] == magic && bytes[4..8] == [1, 0, 0, 0]
    && Sits(bytes, 8, first, 8)
    && Sits(bytes, 16, if records < 0x1_0000_0000 then records else 0xFFFF_FFFF, 4)
    && Sits(bytes, 20, if tail < 0x1_0000_0000 then tail else 0xFFFF_FFFF, 4)
  }

  lemma HeaderFormat(h: Header, layout: Layout, body: seq<int>)
    requires |layout.magic| == 4
    ensures |WriteHeader(h, layout)| == 24
    ensures HeaderSits(WriteHeader(h, layout) + body, layout.magic, h.first, h.records, h.tail)
  {
    hide Le, Sits;
    var bytes := WriteHeader(h, layout) + body;
    var start := layout.magic + [1, 0, 0, 0];
    var f, r, t := Le(h.first, 8), Le(Saturating(h.records), 4), Le(Saturating(h.tail), 4);
    LeSits(start, h.first, 8, r + t + body);
    LeSits(start + f, Saturating(h.records), 4, t + body);
    LeSits(start + f + r, Saturating(h.tail), 4, body);
    assert bytes == start + f + (r + t + body) == start + f + r + (t + body) == start + f + r + t + body;
    assert bytes[..4] == layout.magic && bytes[4..8] == [1, 0, 0, 0];
  }

  /** Where an array starts, as a key: one that starts below zero is written as zero. */
  function Key(first: int): int
  {
    if first < 0 then 0 else first
  }

  // --------------------------------------------------------- the commit index

  /** Twenty bytes a record, five words each, and after the records four bytes a tail word. */
  lemma GraphFormat(index: CommitIndex, bytes: seq<int>)
    requires Graph.Written(bytes, index)
    ensures |bytes| == 24 + 20 * |index.records| + 4 * |index.tail|
    ensures HeaderSits(bytes, [67, 73, 88, 48], Key(index.first), |index.records|, |index.tail|)
    ensures forall k :: 0 <= k < |index.records| ==> RecordSits(bytes, 24 + 20 * k, index.records[k])
    ensures forall m :: 0 <= m < |index.tail| ==> Sits(bytes, 24 + 20 * |index.records| + 4 * m, index.tail[m], 4)
  {
    hide WriteHeader, Sits, HeaderSits, Graph.Bytes, Graph.RecordWords;
    var words := Graph.RecordWords(index.records) + index.tail;
    HeaderFormat(Graph.HeaderOf(index), Graph.GRAPH, Graph.Bytes(words));
    Graph.RecordWordsSize(index.records);
    Graph.BytesSize(words);
    forall k | 0 <= k < |index.records| ensures RecordSits(bytes, 24 + 20 * k, index.records[k]) {
      forall i | 0 <= i < 5 ensures Sits(bytes, 24 + 20 * k + 4 * i, Graph.Fields(index.records[k])[i], 4) {
        Graph.RecordWordsAt(index.records, k, i);
        WordSits(index, bytes, words, 5 * k + i);
      }
      FieldsSit(bytes, 24 + 20 * k, index.records[k]);
    }
    forall m | 0 <= m < |index.tail| ensures Sits(bytes, 24 + 20 * |index.records| + 4 * m, index.tail[m], 4) {
      WordSits(index, bytes, words, 5 * |index.records| + m);
    }
  }

  ghost predicate RecordSits(bytes: seq<int>, at: nat, r: Record)
  {
    && Sits(bytes, at, r.parent1, 4) && Sits(bytes, at + 4, r.parent2, 4) && Sits(bytes, at + 8, r.rootTree, 4)
    && Sits(bytes, at + 12, r.generation, 4) && Sits(bytes, at + 16, r.extra, 4)
  }

  lemma FieldsSit(bytes: seq<int>, at: nat, r: Record)
    requires forall i :: 0 <= i < 5 ==> Sits(bytes, at + 4 * i, Graph.Fields(r)[i], 4)
    ensures RecordSits(bytes, at, r)
  {
    hide Sits;
    assert Sits(bytes, at + 4 * 0, Graph.Fields(r)[0], 4);
    assert Sits(bytes, at + 4 * 1, Graph.Fields(r)[1], 4);
    assert Sits(bytes, at + 4 * 2, Graph.Fields(r)[2], 4);
    assert Sits(bytes, at + 4 * 3, Graph.Fields(r)[3], 4);
    assert Sits(bytes, at + 4 * 4, Graph.Fields(r)[4], 4);
  }

  lemma WordSits(index: CommitIndex, bytes: seq<int>, words: seq<int>, m: nat)
    requires words == Graph.RecordWords(index.records) + index.tail && m < |words|
    requires bytes == WriteHeader(Graph.HeaderOf(index), Graph.GRAPH) + Graph.Bytes(words)
    ensures Sits(bytes, 24 + 4 * m, words[m], 4)
  {
    hide WriteHeader, Graph.Bytes, Graph.RecordWords, Le;
    var header := WriteHeader(Graph.HeaderOf(index), Graph.GRAPH);
    HeaderFormat(Graph.HeaderOf(index), Graph.GRAPH, []);
    Graph.BytesAt(words, m);
    forall i | 0 <= i < 4 ensures bytes[24 + 4 * m + i] == Byte(words[m], i) {
      assert bytes[24 + 4 * m + i] == Graph.Bytes(words)[4 * m..4 * m + 4][i];
      LeIsBytes(words[m], 4, i);
    }
  }

  // ------------------------------------------------------------- pack facts

  /** Sixty bytes a slot: all zero for a hole; otherwise five lengths and offsets, where
      the two bitmaps start in the heap, and a one. */
  ghost predicate SlotSits(bytes: seq<int>, at: nat, slot: Option<PackNode>, treesAt: int, blobsAt: int)
  {
    if slot.None? then at + 60 <= |bytes| && bytes[at..at + 60] == seq(60, _ => 0)
    else
      && Sits(bytes, at, slot.value.entryLen, 8) && Sits(bytes, at + 8, slot.value.blobOffset, 8)
      && Sits(bytes, at + 16, slot.value.segmentId, 16) && Sits(bytes, at + 32, slot.value.baseOffset, 8)
      && Sits(bytes, at + 40, slot.value.imageLen, 8) && Sits(bytes, at + 48, treesAt, 4)
      && Sits(bytes, at + 52, blobsAt, 4) && Sits(bytes, at + 56, 1, 4)
  }

  lemma RecordAlone(n: PackNode, treesAt: int, blobsAt: int)
    ensures SlotSits(Packs.RecordBytes(Some(n), treesAt, blobsAt), 0, Some(n), treesAt, blobsAt)
  {
    hide Le, Sits;
    var b := Packs.RecordBytes(Some(n), treesAt, blobsAt);
    var f0, f1, f2, f3 := Le(n.entryLen, 8), Le(n.blobOffset, 8), Le(n.segmentId, 16), Le(n.baseOffset, 8);
    var f4, f5, f6, f7 := Le(n.imageLen, 8), Le(treesAt, 4), Le(blobsAt, 4), Le(1, 4);
    var p2, p3, p4 := f0 + f1, f0 + f1 + f2, f0 + f1 + f2 + f3;
    var p5, p6, p7 := p4 + f4, p4 + f4 + f5, p4 + f4 + f5 + f6;
    assert b == p7 + f7 + [] == p6 + f6 + f7 == p5 + f5 + (f6 + f7) == p4 + f4 + (f5 + f6 + f7);
    assert b == p3 + f3 + (f4 + f5 + f6 + f7) == p2 + f2 + (f3 + f4 + f5 + f6 + f7);
    assert b == f0 + f1 + (f2 + f3 + f4 + f5 + f6 + f7) == [] + f0 + (f1 + f2 + f3 + f4 + f5 + f6 + f7);
    LeSits([], n.entryLen, 8, f1 + f2 + f3 + f4 + f5 + f6 + f7);
    LeSits(f0, n.blobOffset, 8, f2 + f3 + f4 + f5 + f6 + f7);
    LeSits(p2, n.segmentId, 16, f3 + f4 + f5 + f6 + f7);
    LeSits(p3, n.baseOffset, 8, f4 + f5 + f6 + f7);
    LeSits(p4, n.imageLen, 8, f5 + f6 + f7);
    LeSits(p5, treesAt, 4, f6 + f7);
    LeSits(p6, blobsAt, 4, f7);
    LeSits(p7, 1, 4, []);
  }

  lemma RecordFormat(slot: Option<PackNode>, treesAt: int, blobsAt: int, pre: seq<int>, post: seq<int>)
    ensures SlotSits(pre + Packs.RecordBytes(slot, treesAt, blobsAt) + post, |pre|, slot, treesAt, blobsAt)
  {
    hide Le, Sits;
    if slot.Some? {
      RecordAlone(slot.value, treesAt, blobsAt);
      hide Packs.RecordBytes;
      var n, b := slot.value, Packs.RecordBytes(slot, treesAt, blobsAt);
      SitsWithin(pre, b, post, 0, n.entryLen, 8);
      SitsWithin(pre, b, post, 8, n.blobOffset, 8);
      SitsWithin(pre, b, post, 16, n.segmentId, 16);
      SitsWithin(pre, b, post, 32, n.baseOffset, 8);
      SitsWithin(pre, b, post, 40, n.imageLen, 8);
      SitsWithin(pre, b, post, 48, treesAt, 4);
      SitsWithin(pre, b, post, 52, blobsAt, 4);
      SitsWithin(pre, b, post, 56, 1, 4);
    }
  }

  /** A bitmap in the heap: its length in four bytes, then itself. An empty one takes no room. */
  lemma StowFormat(blob: seq<int>, heap: seq<int>)
    requires |heap| < 0xFFFF_FFFF && |blob| <= 0xFFFF_FFFF
    ensures var (at, after) := Stow(blob, heap);
      if blob == [] then at == 0xFFFF_FFFF && after == heap
      else at == |heap| && Sits(after, |heap|, |blob|, 4) && after[|heap| + 4..] == blob && after[..|heap|] == heap
  {
    hide Le;
    if blob != [] {
      LeSits(heap, |blob|, 4, blob);
    }
  }

  lemma PackFormat(s: Strided<PackNode>, bytes: seq<int>, k: nat)
    requires Packs.Written(bytes, s) && k < |s.slots|
    ensures HeaderSits(bytes, [67, 73, 88, 50], Key(s.first), |s.slots|, |Packs.HeapOf(s.slots)|)
    ensures |bytes| == 24 + 60 * |s.slots| + |Packs.HeapOf(s.slots)|
    ensures bytes[24 + 60 * |s.slots|..] == Packs.HeapOf(s.slots)
    ensures var heap := Packs.HeapOf(s.slots[..k]);
      SlotSits(bytes, 24 + 60 * k, s.slots[k], Packs.TreesAt(s.slots[k], heap), Packs.BlobsAt(s.slots[k], heap))
  {
    hide WriteHeader, Packs.RecordsOf, Packs.HeapOf, Packs.RecordBytes, Packs.TreesAt, Packs.BlobsAt;
    hide SlotSits, HeaderSits;
    var n, header := |s.slots|, WriteHeader(Packs.HeaderOf(s), Packs.PACKS);
    var records, all := Packs.RecordsOf(s.slots), Packs.HeapOf(s.slots);
    HeaderFormat(Packs.HeaderOf(s), Packs.PACKS, records + all);
    assert bytes == header + (records + all);
    assert s.slots[..n] == s.slots;
    Packs.RecordsSize(s.slots, n);
    Packs.RecordAt(s.slots, k, n);
    var heap := Packs.HeapOf(s.slots[..k]);
    var at, trees, blobs := 60 * k, Packs.TreesAt(s.slots[k], heap), Packs.BlobsAt(s.slots[k], heap);
    var record := Packs.RecordBytes(s.slots[k], trees, blobs);
    var pre, post := header + records[..at], records[at + 60..] + all;
    assert records == records[..at] + record + records[at + 60..];
    assert bytes == pre + record + post;
    RecordFormat(s.slots[k], trees, blobs, pre, post);
  }
}
