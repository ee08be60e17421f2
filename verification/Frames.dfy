/** How a segment's bytes are framed, and the integers in them. */
module Frames {
  import opened Objects

  /** The greatest value of thirty-two bits, which also says "nowhere". */
  const NONE: int := 0xFFFF_FFFF

  /** The greatest key a catalog can name. */
  const I64_MAX: int := 0x7FFF_FFFF_FFFF_FFFF

  // ------------------------------------------------------ little-endian fields

  /** `v` is a value of `n` bytes. */
  ghost predicate HoldsIn(v: int, n: nat)
  {
    if n == 0 then v == 0 else v >= 0 && HoldsIn(v / 256, n - 1)
  }

  /** The low `n` bytes of `v`, lowest first. */
  function Le(v: int, n: nat): (b: seq<int>)
    ensures |b| == n
    decreases n
  {
    if n == 0 then [] else [v % 256] + Le(v / 256, n - 1)
  }

  function Unle(b: seq<int>): int
  {
    if b == [] then 0 else b[0] + 256 * Unle(b[1..])
  }

  lemma {:induction false} LeReadsBack(v: int, n: nat)
    requires HoldsIn(v, n)
    ensures Unle(Le(v, n)) == v
  {
    if n > 0 {
      LeReadsBack(v / 256, n - 1);
      assert Le(v, n)[1..] == Le(v / 256, n - 1);
    }
  }

  lemma WordHolds(v: int)
    requires 0 <= v <= NONE
    ensures HoldsIn(v, 4)
  {
    var a, b, c, d := v / 256, v / 256 / 256, v / 256 / 256 / 256, v / 256 / 256 / 256 / 256;
    assert d == 0;
    assert HoldsIn(d, 0);
    assert HoldsIn(c, 1);
    assert HoldsIn(b, 2);
    assert HoldsIn(a, 3);
  }

  lemma KeyHolds(v: int)
    requires 0 <= v <= I64_MAX
    ensures HoldsIn(v, 8)
  {
    var low := v / 256 / 256 / 256 / 256;
    assert low <= NONE;
    WordHolds(low);
    assert HoldsIn(v / 256 / 256 / 256, 5);
    assert HoldsIn(v / 256 / 256, 6);
    assert HoldsIn(v / 256, 7);
  }

  /** A field of `n` bytes, or zero where the bytes end before it does. */
  function Field(bytes: seq<int>, at: nat, n: nat): int
  {
    if at + n <= |bytes| then Unle(bytes[at..at + n]) else 0
  }

  /** A field reads back from wherever it was put. */
  lemma FieldAt(pre: seq<int>, v: int, n: nat, post: seq<int>)
    requires HoldsIn(v, n)
    ensures Field(pre + Le(v, n) + post, |pre|, n) == v
  {
    hide Le, Unle, HoldsIn;
    assert (pre + Le(v, n) + post)[|pre|..|pre| + n] == Le(v, n);
    LeReadsBack(v, n);
  }

  // ------------------------------------------------------------- the header

  const HEADER: nat := 24
  const VERSION: int := 1

  /** A kind of segment: its opening bytes, and the sizes of its records and of its tail's units. */
  datatype Layout = Layout(magic: seq<int>, record: nat, unit: nat)

  /** The first key, and how many records and tail units follow. */
  datatype Header = Header(first: int, records: nat, tail: nat)

  function Saturating(n: nat): nat
  {
    if n <= NONE then n else NONE
  }

  function WriteHeader(h: Header, layout: Layout): seq<int>
  {
    layout.magic + [VERSION, 0, 0, 0] + Le(h.first, 8) + Le(Saturating(h.records), 4) + Le(Saturating(h.tail), 4)
  }

  /** A header that reads, or which of the checks it fails. */
  datatype Framing = Framed(header: Header) | Short | Magic | Version | Unnameable | Truncated

  function ReadHeader(bytes: seq<int>, layout: Layout): Framing
  {
    if |bytes| < HEADER then Short
    else if bytes[..4] != layout.magic then Magic
    else if bytes[4] != VERSION then Version
    else
      var first, records, tail := Field(bytes, 8, 8), Field(bytes, 16, 4), Field(bytes, 20, 4);
      if first > I64_MAX || first < 0 then Unnameable
      else if records < 0 || tail < 0 || HEADER + records * layout.record + tail * layout.unit != |bytes| then Truncated
      else Framed(Header(first, records, tail))
  }

  /** The body a header promises, in bytes. */
  function BodySize(h: Header, layout: Layout): nat
  {
    h.records * layout.record + h.tail * layout.unit
  }

  /** A header's counts are of thirty-two bits. */
  ghost predicate Countable(h: Header)
  {
    h.records <= NONE && h.tail <= NONE
  }

  lemma Smaller(a: nat, b: nat, m: nat)
    requires a < b && m > 0
    ensures a * m < b * m
  {
  }

  /** A header saturated past its counts promises less than is there. */
  lemma SaturatedIsShort(h: Header, layout: Layout)
    requires layout.record > 0 && layout.unit > 0
    ensures Countable(h) <==>
      Saturating(h.records) * layout.record + Saturating(h.tail) * layout.unit == BodySize(h, layout)
  {
    if h.records > NONE {
      Smaller(NONE, h.records, layout.record);
    }
    if h.tail > NONE {
      Smaller(NONE, h.tail, layout.unit);
    }
  }

  /** Bytes framed by a header read back as that header exactly when its counts are
      of thirty-two bits; past that they are refused for their length. */
  lemma HeaderReadsBack(h: Header, layout: Layout, body: seq<int>)
    requires |layout.magic| == 4 && layout.record > 0 && layout.unit > 0
    requires 0 <= h.first <= I64_MAX && |body| == BodySize(h, layout)
    ensures |WriteHeader(h, layout)| == HEADER
    ensures ReadHeader(WriteHeader(h, layout) + body, layout) == if Countable(h) then Framed(h) else Truncated
  {
    hide Le, Unle, HoldsIn, Field;
    var head := layout.magic + [VERSION, 0, 0, 0];
    var f, r, t := Le(h.first, 8), Le(Saturating(h.records), 4), Le(Saturating(h.tail), 4);
    var bytes := WriteHeader(h, layout) + body;
    KeyHolds(h.first);
    WordHolds(Saturating(h.records));
    WordHolds(Saturating(h.tail));
    FieldAt(head, h.first, 8, r + t + body);
    FieldAt(head + f, Saturating(h.records), 4, t + body);
    FieldAt(head + f + r, Saturating(h.tail), 4, body);
    assert bytes == head + f + (r + t + body);
    assert bytes == head + f + r + (t + body);
    assert bytes == head + f + r + t + body;
    assert bytes[..4] == layout.magic && bytes[4] == VERSION;
    SaturatedIsShort(h, layout);
  }

  /** Which records fall inside a range of keys, if any. */
  function SliceOf(first: int, records: nat, lo: int, hi: int): Option<(nat, nat)>
  {
    var from := if lo > first then lo - first else 0;
    var upto := if hi - first + 1 < records then hi - first + 1 else records;
    if from < upto then Some((from, upto)) else None
  }

  // ---------------------------------------------------------------- the heap

  /** Appends a blob behind its length, and says where it went: nowhere for an
      empty one, or where no offset reaches. */
  function Stow(blob: seq<int>, heap: seq<int>): (int, seq<int>)
  {
    if blob == [] then (NONE, heap)
    else (Saturating(|heap|), heap + Le(if |blob| <= NONE then |blob| else 0, 4) + blob)
  }

  /** Reads back what was stowed, or nothing for an offset that runs off the end. */
  function Fetch(at: int, heap: seq<int>): Option<seq<int>>
  {
    if at == NONE then Some([])
    else if at < 0 || at + 4 > |heap| then None
    else
      var n := Unle(heap[at..at + 4]);
      if n < 0 || at + 4 + n > |heap| then None else Some(heap[at + 4..at + 4 + n])
  }

  /** Whether a blob has an offset and a length of thirty-two bits. */
  ghost predicate Stowable(blob: seq<int>, heap: seq<int>)
  {
    blob == [] || (|heap| < NONE && |blob| <= NONE)
  }

  /** What was stowed is fetched, whatever is stowed after it, exactly when its
      offset and length fit; an unfitting blob is fetched as empty. */
  lemma FetchIsStowed(blob: seq<int>, heap: seq<int>, later: seq<int>)
    ensures var (at, after) := Stow(blob, heap);
      Fetch(at, after + later) == Some(if Stowable(blob, heap) then blob else [])
  {
    hide Le, Unle, HoldsIn;
    if blob != [] && |heap| < NONE {
      var n := if |blob| <= NONE then |blob| else 0;
      var after := heap + Le(n, 4) + blob + later;
      WordHolds(n);
      LeReadsBack(n, 4);
      assert after[|heap|..|heap| + 4] == Le(n, 4);
      assert after[|heap| + 4..|heap| + 4 + n] == if |blob| <= NONE then blob else [];
    }
  }
}
