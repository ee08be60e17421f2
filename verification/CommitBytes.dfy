/** A commit index as bytes, and reading part of one back. */
module CommitBytes {
  import opened Objects
  import opened Stride
  import opened CommitIndexes
  import opened Frames

  /** Bytes one record takes, and one word. */
  const RECORD: nat := 20
  const WORD: nat := 4

  predicate IsWord(v: int)
  {
    0 <= v <= NONE
  }

  function Fields(r: Record): (f: seq<int>)
    ensures |f| == 5
  {
    [r.parent1, r.parent2, r.rootTree, r.generation, r.extra]
  }

  /** Every word of the records, in order. */
  function RecordWords(records: seq<Record>): seq<int>
  {
    if records == [] then [] else RecordWords(records[..|records| - 1]) + Fields(records[|records| - 1])
  }

  function Bytes(words: seq<int>): seq<int>
  {
    if words == [] then [] else Bytes(words[..|words| - 1]) + Le(words[|words| - 1], 4)
  }

  lemma {:induction false} RecordWordsAt(records: seq<Record>, k: nat, i: nat)
    requires k < |records| && i < 5
    ensures |RecordWords(records)| == 5 * |records|
    ensures RecordWords(records)[5 * k + i] == Fields(records[k])[i]
  {
    hide Fields;
    var last := |records| - 1;
    if k < last {
      RecordWordsAt(records[..last], k, i);
    } else if last > 0 {
      RecordWordsAt(records[..last], 0, 0);
    }
  }

  lemma {:induction false} RecordWordsSize(records: seq<Record>)
    ensures |RecordWords(records)| == 5 * |records|
  {
    if records != [] {
      RecordWordsSize(records[..|records| - 1]);
    }
  }

  lemma {:induction false} BytesSize(words: seq<int>)
    ensures |Bytes(words)| == 4 * |words|
  {
    hide Le;
    if words != [] {
      BytesSize(words[..|words| - 1]);
    }
  }

  lemma {:induction false} BytesAt(words: seq<int>, k: nat)
    requires k < |words|
    ensures |Bytes(words)| == 4 * |words|
    ensures Bytes(words)[4 * k..4 * k + 4] == Le(words[k], 4)
  {
    hide Le;
    BytesSize(words);
    var last := |words| - 1;
    var front := Bytes(words[..last]);
    BytesSize(words[..last]);
    if k < last {
      BytesAt(words[..last], k);
      assert Bytes(words)[4 * k..4 * k + 4] == front[4 * k..4 * k + 4];
    } else {
      assert Bytes(words)[4 * k..4 * k + 4] == Le(words[k], 4);
    }
  }

  // ---------------------------------------------------------------- encoding

  /** An encoded index, its header read: the header's fields, then the records and the tail as bytes. */
  datatype Parts = Parts(first: int, records: nat, tail: nat, body: seq<int>)

  ghost predicate Encodes(e: Parts, index: CommitIndex)
  {
    && e.first == index.first && e.records == |index.records| && e.tail == |index.tail|
    && e.body == Bytes(RecordWords(index.records) + index.tail)
  }

  /** Every value is of thirty-two bits. */
  ghost predicate AllWords(index: CommitIndex)
  {
    var words := RecordWords(index.records) + index.tail;
    forall k :: 0 <= k < |words| ==> IsWord(words[k])
  }

  lemma BytesMore(words: seq<int>, w: int)
    ensures Bytes(words + [w]) == Bytes(words) + Le(w, 4)
  {
    hide Le;
    assert (words + [w])[..|words|] == words;
  }

  method Append(out: seq<int>, ghost words: seq<int>, more: seq<int>) returns (after: seq<int>)
    requires out == Bytes(words)
    ensures after == Bytes(words + more)
  {
    hide Le, Bytes;
    after := out;
    var i := 0;
    assert words + more[..0] == words;
    while i < |more|
      invariant i <= |more| && after == Bytes(words + more[..i])
    {
      BytesMore(words + more[..i], more[i]);
      assert words + more[..i] + [more[i]] == words + more[..i + 1];
      after := after + Le(more[i], 4);
      i := i + 1;
    }
    assert more[..i] == more;
  }

  method EncodeParts(index: CommitIndex) returns (e: Parts)
    ensures Encodes(e, index)
  {
    hide Bytes;
    var out: seq<int> := [];
    assert out == Bytes([]) by { NoBytes(); }
    var i := 0;
    while i < |index.records|
      invariant i <= |index.records| && out == Bytes(RecordWords(index.records[..i]))
    {
      assert index.records[..i + 1][..i] == index.records[..i];
      out := Append(out, RecordWords(index.records[..i]), Fields(index.records[i]));
      i := i + 1;
    }
    assert index.records[..i] == index.records;
    out := Append(out, RecordWords(index.records), index.tail);
    e := Parts(index.first, |index.records|, |index.tail|, out);
  }

  lemma NoBytes()
    ensures Bytes([]) == []
  {
  }

  // ---------------------------------------------------------------- decoding

  datatype Decoded = Read(index: CommitIndex) | Refused(framing: Framing) | StrayExtra(at: int)

  function ReadRecord(body: seq<int>, at: nat): Record
  {
    Record(Field(body, at, 4), Field(body, at + 4, 4), Field(body, at + 8, 4), Field(body, at + 12, 4),
           Field(body, at + 16, 4))
  }

  lemma WordsRead(e: Parts, index: CommitIndex, k: nat)
    requires Encodes(e, index) && AllWords(index) && k < |RecordWords(index.records) + index.tail|
    ensures 4 * k + 4 <= |e.body| && Field(e.body, 4 * k, 4) == (RecordWords(index.records) + index.tail)[k]
  {
    hide Le, Unle, HoldsIn;
    var words := RecordWords(index.records) + index.tail;
    BytesAt(words, k);
    WordHolds(words[k]);
    LeReadsBack(words[k], 4);
  }

  lemma FieldReads(e: Parts, index: CommitIndex, k: nat, i: nat)
    requires Encodes(e, index) && AllWords(index) && k < |index.records| && i < 5
    ensures 20 * k + 4 * i + 4 <= |e.body| && Field(e.body, 20 * k + 4 * i, 4) == Fields(index.records[k])[i]
  {
    hide Field, Bytes, RecordWords, AllWords, Encodes, Fields;
    RecordWordsAt(index.records, k, i);
    WordsRead(e, index, 5 * k + i);
    assert 4 * (5 * k + i) == 20 * k + 4 * i;
  }

  /** Each record reads back from its own place. */
  lemma RecordReads(e: Parts, index: CommitIndex, k: nat)
    requires Encodes(e, index) && AllWords(index) && k < |index.records|
    ensures RECORD * k + RECORD <= |e.body| && ReadRecord(e.body, RECORD * k) == index.records[k]
  {
    hide Field, Bytes, RecordWords, AllWords, Encodes;
    FieldReads(e, index, k, 0);
    FieldReads(e, index, k, 1);
    FieldReads(e, index, k, 2);
    FieldReads(e, index, k, 3);
    FieldReads(e, index, k, 4);
  }

  lemma TailReads(e: Parts, index: CommitIndex, k: nat)
    requires Encodes(e, index) && AllWords(index) && k < |index.tail|
    ensures Field(e.body, RECORD * e.records + WORD * k, 4) == index.tail[k]
  {
    hide Field, Bytes, RecordWords, AllWords;
    RecordWordsSize(index.records);
    WordsRead(e, index, 5 * |index.records| + k);
  }

  // ------------------------------------------------------------- the round trip

  lemma {:induction false} LayAdds(slots: seq<Option<Node>>, a: nat, k: nat)
    requires a + k <= |slots|
    ensures |LayTail(slots[..a + k])| == |LayTail(slots[..a])| + |LayTail(slots[a..][..k])|
  {
    hide TailOf;
    if k > 0 {
      LayAdds(slots, a, k - 1);
      LayStep(slots, a + k - 1);
      LayStep(slots[a..], k - 1);
      assert slots[a..][k - 1] == slots[a + k - 1];
    }
  }

  /** Part of what fits, fits. */
  lemma SliceFits(slots: seq<Option<Node>>, a: nat, b: nat)
    requires a <= b <= |slots| && Fits(slots) && Told(slots)
    ensures Fits(slots[a..b]) && Told(slots[a..b])
  {
    hide LayTail;
    forall k | 0 <= k < b - a ensures SlotFits(slots[a..b], k) {
      LayAdds(slots, a, k);
      assert slots[a..][..k] == slots[a..b][..k];
      assert SlotFits(slots, a + k);
    }
  }

  /** A restriction is a slice. */
  lemma RestrictionFits(s: Strided<Node>, lo: int, hi: int, r: Strided<Node>)
    requires Fits(s.slots) && Told(s.slots) && Restricts(s, lo, hi, r)
    ensures Fits(r.slots) && Told(r.slots)
  {
    hide Fits, Told;
    if r.slots == [] {
      SliceFits(s.slots, 0, 0);
      assert s.slots[0..0] == r.slots;
    } else {
      var first, last := r.first, r.first + |r.slots| - 1;
      assert Get(r, first).Some? && Get(r, last).Some?;
      assert Get(r, first) == Get(s, first) && Get(r, last) == Get(s, last);
      var a := first - s.first;
      forall k | 0 <= k < |r.slots| ensures r.slots[k] == s.slots[a + k] {
        assert Get(r, first + k) == Get(s, first + k);
      }
      SliceFits(s.slots, a, a + |r.slots|);
      assert s.slots[a..a + |r.slots|] == r.slots;
    }
  }

  /** What a slice of an encoding reads as: the records asked for, and the tail whole. */
  ghost predicate Sliced(e: Parts, from: nat, upto: nat, read: CommitIndex)
  {
    && from <= upto && read.first == e.first + from && |read.records| == upto - from && |read.tail| == e.tail
    && (forall k :: 0 <= k < |read.records| ==> read.records[k] == ReadRecord(e.body, RECORD * (from + k)))
    && (forall k :: 0 <= k < e.tail ==> read.tail[k] == Field(e.body, RECORD * e.records + WORD * k, 4))
  }

  lemma SliceIsOf(e: Parts, index: CommitIndex, from: nat, upto: nat, read: CommitIndex)
    requires Encodes(e, index) && AllWords(index) && upto <= e.records && Sliced(e, from, upto, read)
    ensures read.records == index.records[from..upto] && read.tail == index.tail
  {
    hide ReadRecord, Field, AllWords, Bytes;
    forall k | 0 <= k < |read.records| ensures read.records[k] == index.records[from + k] {
      RecordReads(e, index, from + k);
    }
    forall k | 0 <= k < |read.tail| ensures read.tail[k] == index.tail[k] {
      TailReads(e, index, k);
    }
  }

  /** A slice of a standing index reads as its slots, none of them stray. */
  lemma SliceStands(index: CommitIndex, s: Strided<Node>, from: nat, upto: nat, read: CommitIndex)
    requires Stands(index, s) && from <= upto <= |index.records|
    requires read.records == index.records[from..upto] && read.tail == index.tail
    ensures |index.records| == |s.slots| && ReadSlots(read) == s.slots[from..upto]
    ensures forall k :: 0 <= k < |read.records| ==> ExtraSpan(read.records[k], read.tail).Some?
  {
    hide LayTail, ExtraSpan;
    ReadsBackIffFits(s.slots, s.first);
    forall k | 0 <= k < upto - from
      ensures ReadSlots(read)[k] == s.slots[from + k] && ExtraSpan(read.records[k], read.tail).Some?
    {
      assert ReadSlots(index)[from + k] == s.slots[from + k];
      SlotSpan(s.slots, from + k);
    }
  }

  lemma SlotSpan(slots: seq<Option<Node>>, k: nat)
    requires k < |slots| && Told(slots) && Fits(slots)
    ensures ExtraSpan(LayRecords(slots)[k], LayTail(slots)).Some?
  {
    hide LayTail;
    assert SlotFits(slots, k);
    if slots[k].Some? && slots[k].value.extra != [] {
      assert slots[..|slots|] == slots;
      var rest := LaySplits(slots, k, |slots|);
      SpanIsFound(LayTail(slots[..k]), slots[k].value.extra, rest, LayRecords(slots)[k]);
    }
  }

  /** The encoding of an index that can be read back. */
  ghost predicate EncodesStanding(e: Parts, index: CommitIndex)
  {
    Encodes(e, index) && AllWords(index) && Standing(index)
  }

  /** `r` answers as `index` does within the range, and not at all outside it. */
  ghost predicate ReadsRange(index: CommitIndex, lo: int, hi: int, r: CommitIndex)
  {
    Standing(r) && forall x :: Lookup(r, x) == if lo <= x <= hi then Lookup(index, x) else None
  }

  /** Reads the records a range covers, the header read already. */
  method DecodeParts(e: Parts, lo: int, hi: int, ghost index: CommitIndex) returns (d: Decoded)
    ensures d.Read? ==> IsLayout(d.index)
    ensures EncodesStanding(e, index) ==> d.Read? && ReadsRange(index, lo, hi, d.index)
  {
    hide Encodes, AllWords, Stands, Restricts, Laid, ReadRecord, Field, ReadSlots, ExtraSpan, ReadsRange, Lookup;
    ghost var s :| EncodesStanding(e, index) ==> Stands(index, s);
    var slice := SliceOf(e.first, e.records, lo, hi);
    if slice.None? {
      ghost var none: Strided<Node> := Strided(0, []);
      EmptySlice(e, lo, hi, index, s, none);
      var nothing := Assemble(Strided(0, []));
      if EncodesStanding(e, index) {
        RestrictionReads(index, s, lo, hi, none);
      }
      assert Canonical(none);
      return Read(nothing);
    }
    var from, upto := slice.value.0, slice.value.1;
    var records: seq<Record> := [];
    var k := from;
    while k < upto
      invariant from <= k <= upto && |records| == k - from
      invariant forall i :: 0 <= i < |records| ==> records[i] == ReadRecord(e.body, RECORD * (from + i))
    {
      if RECORD * k + RECORD > |e.body| {
        if EncodesStanding(e, index) {
          EncodedCount(e, index);
          RecordReads(e, index, k);
        }
        return Refused(Truncated);
      }
      records := records + [ReadRecord(e.body, RECORD * k)];
      k := k + 1;
    }
    var tail: seq<int> := [];
    k := 0;
    while k < e.tail
      invariant k <= e.tail && |tail| == k
      invariant forall i :: 0 <= i < k ==> tail[i] == Field(e.body, RECORD * e.records + WORD * i, 4)
    {
      tail := tail + [Field(e.body, RECORD * e.records + WORD * k, 4)];
      k := k + 1;
    }
    var read := CommitIndex(e.first + from, records, tail);
    SliceOfStanding(e, index, s, lo, hi, from, upto, read);
    k := 0;
    while k < |records|
      invariant k <= |records|
    {
      if records[k].extra != NONE && ExtraSpan(records[k], tail).None? {
        return StrayExtra(records[k].extra);
      }
      k := k + 1;
    }
    var nodes := Nodes(read);
    NodesAreBehind(read, nodes);
    BehindIsTold(read, nodes);
    var laid := Assemble(nodes);
    if EncodesStanding(e, index) {
      RestrictedStands(e, index, s, lo, hi, from, upto, read, nodes);
      RestrictionReads(index, s, lo, hi, nodes);
    }
    d := Read(laid);
  }

  /** The layout of a restriction answers as the index does within the range. */
  lemma RestrictionReads(index: CommitIndex, s: Strided<Node>, lo: int, hi: int, r: Strided<Node>)
    requires Stands(index, s) && Restricts(s, lo, hi, r) && Stands(Laid(r), r)
    ensures ReadsRange(index, lo, hi, Laid(r))
  {
    hide Stands, Laid, Lookup;
    forall x ensures Lookup(Laid(r), x) == if lo <= x <= hi then Lookup(index, x) else None {
      LookupIsGet(index, s, x);
      LookupIsGet(Laid(r), r, x);
    }
  }

  lemma EncodedCount(e: Parts, index: CommitIndex)
    requires Encodes(e, index)
    ensures e.records == |index.records|
  {
  }

  lemma EmptySlice(e: Parts, lo: int, hi: int, index: CommitIndex, s: Strided<Node>, r: Strided<Node>)
    requires SliceOf(e.first, e.records, lo, hi).None? && r == Strided(0, [])
    ensures Encodes(e, index) && Stands(index, s) ==> Restricts(s, lo, hi, r) && Stands(Laid(r), r)
  {
  }

  lemma SliceOfStanding(e: Parts, index: CommitIndex, s: Strided<Node>, lo: int, hi: int, from: nat, upto: nat,
                        read: CommitIndex)
    requires SliceOf(e.first, e.records, lo, hi) == Some((from, upto)) && Sliced(e, from, upto, read)
    ensures Encodes(e, index) && AllWords(index) && Stands(index, s) ==>
      forall k :: 0 <= k < |read.records| ==> ExtraSpan(read.records[k], read.tail).Some?
  {
    hide AllWords, Stands, ExtraSpan, Sliced;
    if Encodes(e, index) && AllWords(index) && Stands(index, s) {
      SliceIsOf(e, index, from, upto, read);
      SliceStands(index, s, from, upto, read);
    }
  }

  lemma RestrictedStands(e: Parts, index: CommitIndex, s: Strided<Node>, lo: int, hi: int, from: nat, upto: nat,
                         read: CommitIndex, r: Strided<Node>)
    requires SliceOf(e.first, e.records, lo, hi) == Some((from, upto)) && Sliced(e, from, upto, read)
    requires Encodes(e, index) && AllWords(index) && Stands(index, s) && Canonical(r)
    requires forall x :: Get(r, x) == Get(Strided(read.first, ReadSlots(read)), x)
    ensures Restricts(s, lo, hi, r) && Stands(Laid(r), r)
  {
    hide AllWords, ExtraSpan, LayTail, ReadSlots, LayRecords, Fits, Told;
    SliceIsOf(e, index, from, upto, read);
    SliceStands(index, s, from, upto, read);
    RestrictedSlice(s, lo, hi, from, upto, r);
    RestrictionFits(s, lo, hi, r);
  }

  // -------------------------------------------------------------- the segment

  /** How tier-one segments are framed. */
  const GRAPH: Layout := Layout([67, 73, 88, 48], RECORD, WORD)

  function HeaderOf(index: CommitIndex): Header
  {
    Header(if index.first < 0 then 0 else index.first, |index.records|, |index.tail|)
  }

  /** The bytes are the index's: a header, twenty bytes a record, four a tail word. */
  ghost predicate Written(bytes: seq<int>, index: CommitIndex)
  {
    bytes == WriteHeader(HeaderOf(index), GRAPH) + Bytes(RecordWords(index.records) + index.tail)
  }

  method Encode(index: CommitIndex) returns (bytes: seq<int>)
    ensures Written(bytes, index)
  {
    hide Bytes, RecordWords, WriteHeader;
    var parts := EncodeParts(index);
    bytes := WriteHeader(HeaderOf(index), GRAPH) + parts.body;
  }

  lemma BodyIsSized(index: CommitIndex)
    ensures |Bytes(RecordWords(index.records) + index.tail)| == BodySize(HeaderOf(index), GRAPH)
  {
    hide Bytes, RecordWords;
    BytesSize(RecordWords(index.records) + index.tail);
    RecordWordsSize(index.records);
  }

  /** An index that can be read back, of values of thirty-two bits, at keys a catalog can name. */
  ghost predicate Storable(index: CommitIndex)
  {
    AllWords(index) && Standing(index) && 0 <= index.first <= I64_MAX
  }

  /** How the bytes of an index are answered for a range: refused for their length
      when its records or tail are too many to count in thirty-two bits, and
      otherwise, if it could be read back, read as it is within the range. */
  ghost predicate AnswersRange(index: CommitIndex, lo: int, hi: int, d: Decoded)
  {
    && (0 <= index.first <= I64_MAX && !Countable(HeaderOf(index)) ==> d == Refused(Truncated))
    && (Storable(index) && Countable(HeaderOf(index)) ==> d.Read? && ReadsRange(index, lo, hi, d.index))
  }

  /** Reads the records a range of seqs covers. Whatever laid the bytes out, what is
      read is a canonical layout. */
  method DecodeRange(bytes: seq<int>, lo: int, hi: int, ghost index: CommitIndex) returns (d: Decoded)
    ensures d.Read? ==> IsLayout(d.index)
    ensures Written(bytes, index) ==> AnswersRange(index, lo, hi, d)
  {
    hide Bytes, RecordWords, WriteHeader, ReadHeader, AllWords, Standing, ReadsRange, IsLayout, Countable;
    var framing := ReadHeader(bytes, GRAPH);
    if Written(bytes, index) && 0 <= index.first <= I64_MAX {
      BodyIsSized(index);
      HeaderReadsBack(HeaderOf(index), GRAPH, Bytes(RecordWords(index.records) + index.tail));
    }
    if !framing.Framed? {
      return Refused(framing);
    }
    FramedIsLong(bytes, GRAPH);
    var e := Parts(framing.header.first, framing.header.records, framing.header.tail, bytes[HEADER..]);
    if Written(bytes, index) && Storable(index) {
      assert bytes[HEADER..] == Bytes(RecordWords(index.records) + index.tail);
      assert EncodesStanding(e, index);
    }
    d := DecodeParts(e, lo, hi, index);
  }

  lemma FramedIsLong(bytes: seq<int>, layout: Layout)
    requires ReadHeader(bytes, layout).Framed?
    ensures |bytes| >= HEADER
  {
  }

  // ------------------------------------------------- from builder to reader

  lemma {:induction false} RecordsAreWords(records: seq<Record>)
    requires forall k, i :: 0 <= k < |records| && 0 <= i < 5 ==> IsWord(Fields(records[k])[i])
    ensures forall m :: 0 <= m < |RecordWords(records)| ==> IsWord(RecordWords(records)[m])
  {
    hide Fields;
    if records != [] {
      var last := |records| - 1;
      RecordsAreWords(records[..last]);
      assert forall i :: 0 <= i < 5 ==> IsWord(Fields(records[last])[i]);
    }
  }

  /** Whatever a builder was told is laid out in values of thirty-two bits. */
  lemma BuiltIsWords(told: map<int, Commit>, index: CommitIndex)
    requires Built(told, index)
    ensures AllWords(index)
  {
    hide LayTail, RecordWords, Canonical, Fields;
    var s :| Records(told, s) && index == Laid(s);
    forall k | 0 <= k < |s.slots| ensures SlotIsWords(s.slots[k]) {
      SlotsAreWords(told, s, k);
    }
    forall k, i | 0 <= k < |index.records| && 0 <= i < 5 ensures IsWord(Fields(index.records[k])[i]) {
      RecordIsWords(s.slots[k], |LayTail(s.slots[..k])|, i);
    }
    RecordsAreWords(index.records);
    TailIsWords(s.slots);
  }

  ghost predicate SlotIsWords(slot: Option<Node>)
  {
    slot.Some? ==>
      && IsWord(slot.value.generation) && IsWord(slot.value.rootTree)
      && IsWord(slot.value.parent1) && IsWord(slot.value.parent2)
      && forall k :: 0 <= k < |slot.value.extra| ==> IsWord(slot.value.extra[k])
  }

  lemma SlotsAreWords(told: map<int, Commit>, s: Strided<Node>, k: nat)
    requires Records(told, s) && k < |s.slots| && forall x :: x in told ==> Writable(x, told[x])
    ensures SlotIsWords(s.slots[k])
  {
    var x := s.first + k;
    assert Get(s, x) == if x in told then Some(NodeOf(told[x])) else None;
    if x in told {
      assert Writable(x, told[x]);
      var p := told[x].parents;
      assert forall i :: 0 <= i < |p| ==> IsWord(p[i]);
    }
  }

  lemma RecordIsWords(slot: Option<Node>, at: nat, i: nat)
    requires SlotIsWords(slot) && i < 5
    ensures IsWord(Fields(RecordOf(slot, at))[i])
  {
  }

  lemma {:induction false} TailIsWords(slots: seq<Option<Node>>)
    requires forall k :: 0 <= k < |slots| ==> SlotIsWords(slots[k])
    ensures forall m :: 0 <= m < |LayTail(slots)| ==> IsWord(LayTail(slots)[m])
  {
    if slots != [] {
      var last := |slots| - 1;
      TailIsWords(slots[..last]);
      assert SlotIsWords(slots[last]);
      assert forall m :: 0 <= m < |TailOf(slots[last])| ==> IsWord(TailOf(slots[last])[m]);
    }
  }

  /** A tail counted in thirty-two bits has room for every count and offset in it. */
  lemma CountedTailFits(slots: seq<Option<Node>>)
    requires |LayTail(slots)| <= NONE
    ensures Fits(slots)
  {
    hide LayTail;
    forall k | 0 <= k < |slots| ensures SlotFits(slots, k) {
      assert slots[..|slots|] == slots;
      var rest := LaySplits(slots, k, |slots|);
    }
  }

  /** Seqs that fit their slots span no more records than can be counted. */
  lemma BuiltIsCounted(told: map<int, Commit>, index: CommitIndex)
    requires Built(told, index)
    ensures 0 <= index.first <= I64_MAX && (Countable(HeaderOf(index)) <==> |index.tail| <= NONE)
    ensures |index.tail| <= NONE ==> RoomFor(told)
  {
    hide LayTail;
    var s :| Records(told, s) && index == Laid(s);
    if |index.tail| <= NONE {
      CountedTailFits(s.slots);
    }
    if s.slots != [] {
      var first, last := s.first, s.first + |s.slots| - 1;
      assert Get(s, first).Some? && Get(s, last).Some?;
      assert Writable(first, told[first]) && Writable(last, told[last]);
    }
  }

  /** An index built of any commits, octopus merges included, written out and read
      for a range: exactly when its tail can be counted in thirty-two bits is it
      read, and then it gives every commit of the range back, parents in order, and
      nothing else; otherwise it is refused for its length. */
  lemma StoredGivesBack(told: map<int, Commit>, index: CommitIndex, lo: int, hi: int, d: Decoded, x: int)
    requires Built(told, index) && AnswersRange(index, lo, hi, d)
    ensures d.Read? <==> |index.tail| <= NONE
    ensures !d.Read? ==> d == Refused(Truncated)
    ensures d.Read? ==> Standing(d.index)
    ensures d.Read? && lo <= x <= hi && x in told ==>
      Lookup(d.index, x).Some? && Gives(Lookup(d.index, x).value, told[x])
    ensures d.Read? && !(lo <= x <= hi && x in told) ==> Lookup(d.index, x) == None
  {
    hide Built, RoomFor, AllWords, Lookup, Gives, Standing, Countable;
    BuiltIsCounted(told, index);
    if |index.tail| <= NONE {
      BuiltIsWords(told, index);
      BuiltGivesBack(told, index, x);
      assert Storable(index);
      assert Lookup(d.index, x) == if lo <= x <= hi then Lookup(index, x) else None;
    }
  }
}
