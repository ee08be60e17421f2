/** The commit index: an array of records by seq, with third and later parents
    spilled to a list beside it.
*/
module CommitIndexes {
  import opened Objects
  import opened Stride
  import opened Frames

  /** A word; its top value is the absent mark, wherever a field may be absent. */
  type U32 = x: int | 0 <= x <= NONE

  /** What a record and its spilled parents say, put together. */
  datatype Node = Node(generation: int, rootTree: int, parent1: int, parent2: int, extra: seq<int>)

  datatype Record = Record(parent1: int, parent2: int, rootTree: int, generation: int, extra: int) {
    predicate Present()
    {
      rootTree != NONE
    }
  }

  const ABSENT: Record := Record(NONE, NONE, NONE, 0, NONE)

  datatype CommitIndex = CommitIndex(first: int, records: seq<Record>, tail: seq<int>)

  // --------------------------------------------------------- the join's order

  predicate LexLess(a: seq<int>, b: seq<int>)
  {
    if b == [] then false
    else if a == [] then true
    else if a[0] != b[0] then a[0] < b[0]
    else LexLess(a[1..], b[1..])
  }

  lemma {:induction false} LexIsIrreflexive(a: seq<int>)
    ensures !LexLess(a, a)
  {
    if a != [] {
      LexIsIrreflexive(a[1..]);
    }
  }

  lemma {:induction false} LexIsTransitive(a: seq<int>, b: seq<int>, c: seq<int>)
    requires LexLess(a, b) && LexLess(b, c)
    ensures LexLess(a, c)
  {
    if a != [] && a[0] == b[0] == c[0] {
      LexIsTransitive(a[1..], b[1..], c[1..]);
    }
  }

  lemma {:induction false} LexIsTotal(a: seq<int>, b: seq<int>)
    ensures a == b || LexLess(a, b) || LexLess(b, a)
  {
    if a != [] && b != [] && a[0] == b[0] {
      LexIsTotal(a[1..], b[1..]);
      assert a == [a[0]] + a[1..] && b == [b[0]] + b[1..];
    }
  }

  /** A node's fields in the order they are compared. */
  function Key(n: Node): seq<int>
  {
    [n.generation, n.rootTree, n.parent1, n.parent2] + n.extra
  }

  function NodeLess(): (Node, Node) -> bool
  {
    (a, b) => LexLess(Key(a), Key(b))
  }

  /** Comparing fields in turn orders nodes totally, so the join is a lattice's. */
  lemma NodesAreOrdered()
    ensures TotalOrder(NodeLess())
  {
    hide LexLess;
    forall a ensures !NodeLess()(a, a) {
      LexIsIrreflexive(Key(a));
    }
    forall a, b, c | NodeLess()(a, b) && NodeLess()(b, c) ensures NodeLess()(a, c) {
      LexIsTransitive(Key(a), Key(b), Key(c));
    }
    forall a, b ensures a == b || NodeLess()(a, b) || NodeLess()(b, a) {
      LexIsTotal(Key(a), Key(b));
      if Key(a) == Key(b) {
        assert a.extra == Key(a)[4..] && b.extra == Key(b)[4..];
        assert Key(a)[0] == Key(b)[0] && Key(a)[1] == Key(b)[1] && Key(a)[2] == Key(b)[2] && Key(a)[3] == Key(b)[3];
      }
    }
  }

  /** The two agree up to `k`, where the first ends or is the lesser. */
  ghost predicate Splits(a: seq<int>, b: seq<int>, k: int)
  {
    && 0 <= k <= |a| && k < |b|
    && (forall i :: 0 <= i < k ==> a[i] == b[i])
    && (k == |a| || a[k] < b[k])
  }

  lemma SplitsTail(a: seq<int>, b: seq<int>, k: int)
    requires a != [] && b != [] && a[0] == b[0] && k > 0
    ensures Splits(a, b, k) <==> Splits(a[1..], b[1..], k - 1)
  {
    var c, d := a[1..], b[1..];
    if Splits(c, d, k - 1) {
      forall i | 0 <= i < k ensures a[i] == b[i] {
        if i > 0 {
          assert c[i - 1] == d[i - 1];
        }
      }
    }
  }

  /** One sequence is less than another where they first differ, or where it ends first. */
  lemma {:induction false} LexIsDictionary(a: seq<int>, b: seq<int>)
    ensures LexLess(a, b) <==> exists k :: Splits(a, b, k)
  {
    if b == [] {
    } else if a == [] || a[0] != b[0] {
      assert Splits(a, b, 0) <==> LexLess(a, b);
    } else {
      LexIsDictionary(a[1..], b[1..]);
      if k :| Splits(a[1..], b[1..], k) {
        SplitsTail(a, b, k + 1);
      }
      if k :| Splits(a, b, k) {
        SplitsTail(a, b, k);
      }
    }
  }

  /** Nodes are compared by generation, then root tree, then the first parent, the
      second, and the rest. */
  lemma NodeOrder(a: Node, b: Node)
    ensures NodeLess()(a, b) <==>
      || a.generation < b.generation
      || (a.generation == b.generation &&
          (|| a.rootTree < b.rootTree
           || (a.rootTree == b.rootTree &&
               (|| a.parent1 < b.parent1
                || (a.parent1 == b.parent1 &&
                    (a.parent2 < b.parent2 || (a.parent2 == b.parent2 && LexLess(a.extra, b.extra))))))))
  {
    var p, q := [a.generation, a.rootTree, a.parent1, a.parent2], [b.generation, b.rootTree, b.parent1, b.parent2];
    if p == q {
      assert p[0] == q[0] && p[1] == q[1] && p[2] == q[2] && p[3] == q[3];
      LexShared(p, a.extra, b.extra);
    } else {
      LexHead(p, a.extra, q, b.extra);
      HeadsCompare(p, q);
    }
  }

  lemma HeadsCompare(p: seq<int>, q: seq<int>)
    requires |p| == |q| == 4
    ensures LexLess(p, q) <==>
      || p[0] < q[0]
      || (p[0] == q[0] && (p[1] < q[1] || (p[1] == q[1] && (p[2] < q[2] || (p[2] == q[2] && p[3] < q[3])))))
  {
    var p1, p2, p3 := p[1..], p[1..][1..], p[1..][1..][1..];
    var q1, q2, q3 := q[1..], q[1..][1..], q[1..][1..][1..];
    assert p1[0] == p[1] && p2[0] == p[2] && p3[0] == p[3] && p3[1..] == [];
    assert q1[0] == q[1] && q2[0] == q[2] && q3[0] == q[3] && q3[1..] == [];
    assert LexLess(p3, q3) <==> p[3] < q[3];
    assert LexLess(p2, q2) <==> p[2] < q[2] || (p[2] == q[2] && LexLess(p3, q3));
    assert LexLess(p1, q1) <==> p[1] < q[1] || (p[1] == q[1] && LexLess(p2, q2));
  }

  lemma {:induction false} LexHead(p: seq<int>, a: seq<int>, q: seq<int>, b: seq<int>)
    requires |p| == |q| && p != q
    ensures LexLess(p + a, q + b) <==> LexLess(p, q)
  {
    if p != [] && p[0] == q[0] {
      assert p == [p[0]] + p[1..] && q == [q[0]] + q[1..];
      LexHead(p[1..], a, q[1..], b);
      assert (p + a)[1..] == p[1..] + a && (q + b)[1..] == q[1..] + b;
    }
  }

  // -------------------------------------------------------------- the layout

  /** What a node's extra parents take out of line: their count, then themselves. */
  function TailOf(slot: Option<Node>): seq<int>
  {
    if slot.None? || slot.value.extra == [] then []
    else [if |slot.value.extra| <= NONE then |slot.value.extra| else 0] + slot.value.extra
  }

  function LayTail(slots: seq<Option<Node>>): seq<int>
  {
    if slots == [] then [] else LayTail(slots[..|slots| - 1]) + TailOf(slots[|slots| - 1])
  }

  /** A slot's record, its extra parents out of line at `at`. */
  function RecordOf(slot: Option<Node>, at: nat): Record
  {
    if slot.None? then ABSENT
    else Record(slot.value.parent1, slot.value.parent2, slot.value.rootTree, slot.value.generation,
                if slot.value.extra == [] || at > NONE then NONE else at)
  }

  ghost function LayRecords(slots: seq<Option<Node>>): (records: seq<Record>)
  {
    seq(|slots|, k requires 0 <= k < |slots| => RecordOf(slots[k], |LayTail(slots[..k])|))
  }

  /** The index a stride array is stored as. */
  ghost function Laid(s: Strided<Node>): CommitIndex
  {
    CommitIndex(s.first, LayRecords(s.slots), LayTail(s.slots))
  }

  /** The spilled parents a record points at, or `None` if it points outside the list. */
  function ExtraSpan(record: Record, tail: seq<int>): Option<seq<int>>
  {
    if record.extra == NONE then Some([])
    else if !(0 <= record.extra < |tail|) then None
    else
      var count := tail[record.extra];
      if count < 0 || record.extra + 1 + count > |tail| then None
      else Some(tail[record.extra + 1..record.extra + 1 + count])
  }

  function ExtraOf(record: Record, tail: seq<int>): seq<int>
  {
    if ExtraSpan(record, tail).Some? then ExtraSpan(record, tail).value else []
  }

  function ReadNode(record: Record, tail: seq<int>): Option<Node>
  {
    if !record.Present() then None
    else Some(Node(record.generation, record.rootTree, record.parent1, record.parent2, ExtraOf(record, tail)))
  }

  /** Every slot read back, before trimming. */
  function ReadSlots(index: CommitIndex): (slots: seq<Option<Node>>)
    ensures |slots| == |index.records|
  {
    seq(|index.records|, k requires 0 <= k < |index.records| => ReadNode(index.records[k], index.tail))
  }

  /** An occupied slot can be told from a hole. */
  ghost predicate Told(slots: seq<Option<Node>>)
  {
    forall k :: 0 <= k < |slots| && slots[k].Some? ==> slots[k].value.rootTree != NONE
  }

  /** Slot `k`'s extra parents, if any, have an offset and a count of 32 bits. */
  ghost predicate SlotFits(slots: seq<Option<Node>>, k: nat)
    requires k < |slots|
  {
    slots[k].Some? && slots[k].value.extra != [] ==> |LayTail(slots[..k])| < NONE && |slots[k].value.extra| <= NONE
  }

  ghost predicate Fits(slots: seq<Option<Node>>)
  {
    forall k :: 0 <= k < |slots| ==> SlotFits(slots, k)
  }

  lemma LayStep(slots: seq<Option<Node>>, k: nat)
    requires k < |slots|
    ensures LayTail(slots[..k + 1]) == LayTail(slots[..k]) + TailOf(slots[k])
  {
    hide TailOf;
    assert slots[..k + 1][..k] == slots[..k];
  }

  lemma {:induction false} LaySplits(slots: seq<Option<Node>>, k: nat, n: nat) returns (rest: seq<int>)
    requires k < n <= |slots|
    ensures LayTail(slots[..n]) == LayTail(slots[..k]) + TailOf(slots[k]) + rest
    decreases n
  {
    hide TailOf, LayTail;
    LayStep(slots, n - 1);
    if k == n - 1 {
      rest := [];
    } else {
      var before := LaySplits(slots, k, n - 1);
      rest := before + TailOf(slots[n - 1]);
    }
  }

  /** A count and what it counts, found where it was put. */
  lemma SpanIsFound(pre: seq<int>, extra: seq<int>, rest: seq<int>, record: Record)
    requires record.extra == |pre| < NONE
    ensures ExtraSpan(record, pre + ([|extra|] + extra) + rest) == Some(extra)
  {
    var tail := pre + ([|extra|] + extra) + rest;
    assert tail[|pre|] == |extra|;
    assert tail[|pre| + 1..|pre| + 1 + |extra|] == extra;
  }

  /** What a slot reads back as: itself where its extra parents fit, itself without them where not. */
  function ReadsAs(slot: Option<Node>, fits: bool): Option<Node>
  {
    if fits || slot.None? then slot else Some(slot.value.(extra := []))
  }

  lemma SlotReadsBack(slots: seq<Option<Node>>, k: nat)
    requires k < |slots| && Told(slots)
    ensures ReadNode(LayRecords(slots)[k], LayTail(slots)) == ReadsAs(slots[k], SlotFits(slots, k))
    ensures ReadNode(LayRecords(slots)[k], LayTail(slots)) == slots[k] <==> SlotFits(slots, k)
  {
    hide LayTail, ExtraSpan;
    assert slots[..|slots|] == slots;
    var rest := LaySplits(slots, k, |slots|);
    var record := LayRecords(slots)[k];
    if slots[k].None? || slots[k].value.extra == [] {
      NoSpan(record, LayTail(slots));
    } else {
      var pre, extra := LayTail(slots[..k]), slots[k].value.extra;
      if |pre| >= NONE {
        NoSpan(record, LayTail(slots));
      } else if |extra| > NONE {
        EmptySpan(pre, extra, rest, record);
      } else {
        SpanIsFound(pre, extra, rest, record);
      }
    }
  }

  lemma NoSpan(record: Record, tail: seq<int>)
    ensures record.extra == NONE ==> ExtraSpan(record, tail) == Some([])
  {
  }

  lemma EmptySpan(pre: seq<int>, extra: seq<int>, rest: seq<int>, record: Record)
    requires record.extra == |pre| < NONE
    ensures ExtraSpan(record, pre + ([0] + extra) + rest) == Some([])
  {
    var tail := pre + ([0] + extra) + rest;
    assert tail[|pre|] == 0;
    assert tail[|pre| + 1..|pre| + 1] == [];
  }

  /** An index reads back as what was laid out exactly when its tail fits 32-bit offsets. */
  lemma ReadsBackIffFits(slots: seq<Option<Node>>, first: int)
    requires Told(slots)
    ensures ReadSlots(Laid(Strided(first, slots))) == slots <==> Fits(slots)
  {
    hide LayTail, SlotFits, ReadNode, RecordOf;
    var read := ReadSlots(Laid(Strided(first, slots)));
    forall k | 0 <= k < |slots| ensures read[k] == slots[k] <==> SlotFits(slots, k) {
      SlotReadsBack(slots, k);
    }
  }

  /** Lays a stride array out. */
  method Assemble(s: Strided<Node>) returns (index: CommitIndex)
    ensures index == Laid(s)
  {
    hide LayTail, TailOf, RecordOf;
    assert LayTail(s.slots[..0]) == [] by { NothingLaid(); }
    var records: seq<Record> := [];
    var tail: seq<int> := [];
    var k := 0;
    while k < |s.slots|
      invariant k <= |s.slots| && tail == LayTail(s.slots[..k])
      invariant |records| == k && forall i :: 0 <= i < k ==> records[i] == RecordOf(s.slots[i], |LayTail(s.slots[..i])|)
    {
      LayStep(s.slots, k);
      records := records + [RecordOf(s.slots[k], |tail|)];
      tail := tail + TailOf(s.slots[k]);
      k := k + 1;
    }
    assert s.slots[..k] == s.slots;
    index := CommitIndex(s.first, records, tail);
  }

  lemma NothingLaid()
    ensures LayTail([]) == []
  {
  }

  /** Reads back every slot of an index. */
  method Nodes(index: CommitIndex) returns (s: Strided<Node>)
    ensures Canonical(s)
    ensures forall x :: Get(s, x) == Get(Strided(index.first, ReadSlots(index)), x)
  {
    s := Trimmed(index.first, ReadSlots(index));
  }

  // -------------------------------------------------------------- what it says

  /** `index` is the layout of `s`, and all of `s` can be read back from it. */
  ghost predicate Stands(index: CommitIndex, s: Strided<Node>)
  {
    Canonical(s) && Told(s.slots) && Fits(s.slots) && index == Laid(s)
  }

  /** An index all of whose nodes can be read back. */
  ghost predicate Standing(index: CommitIndex)
  {
    exists s :: Stands(index, s)
  }

  /** A layout of occupied slots in which neither end is a hole, readable or not. */
  ghost predicate IsLayout(index: CommitIndex)
  {
    exists s :: Canonical(s) && Told(s.slots) && index == Laid(s)
  }

  /** What the index knows about a seq. */
  function Lookup(index: CommitIndex, x: int): Option<Node>
  {
    if index.first <= x < index.first + |index.records| then ReadNode(index.records[x - index.first], index.tail)
    else None
  }

  /** A laid-out index answers as the map it stands for. */
  lemma LookupIsGet(index: CommitIndex, s: Strided<Node>, x: int)
    requires Stands(index, s)
    ensures Lookup(index, x) == Get(s, x)
  {
    hide LayTail, RecordOf, ReadNode, Fits, Told;
    ReadsBackIffFits(s.slots, s.first);
    assert forall k :: 0 <= k < |s.slots| ==> ReadSlots(index)[k] == ReadNode(index.records[k], index.tail);
  }

  // ------------------------------------------------ which layouts can be read

  /** One more slot of two equal layouts, the first of which reads back: the
      second's tail is no shorter, and until it is longer the slots agree. */
  lemma {:induction false} LayoutsKeepPace(s: seq<Option<Node>>, t: seq<Option<Node>>, k: nat)
    requires Told(s) && Told(t) && Fits(s) && LayRecords(s) == LayRecords(t) && LayTail(s) == LayTail(t) && k <= |s|
    ensures |s| == |t| && |LayTail(s[..k])| <= |LayTail(t[..k])|
    ensures s[..k] == t[..k] || |LayTail(s[..k])| < |LayTail(t[..k])|
  {
    hide LayTail, TailOf, RecordOf, ReadNode;
    assert |s| == |LayRecords(s)| == |LayRecords(t)| == |t|;
    if k > 0 {
      LayoutsKeepPace(s, t, k - 1);
      LayStep(s, k - 1);
      LayStep(t, k - 1);
      assert LayRecords(s)[k - 1] == LayRecords(t)[k - 1];
      assert SlotFits(s, k - 1);
      SlotReadsBack(s, k - 1);
      SlotReadsBack(t, k - 1);
      SlotKeepsPace(s[k - 1], |LayTail(s[..k - 1])|, t[k - 1], |LayTail(t[..k - 1])|, SlotFits(t, k - 1));
      if s[..k - 1] == t[..k - 1] && s[k - 1] == t[k - 1] {
        assert s[..k] == s[..k - 1] + [s[k - 1]] && t[..k] == t[..k - 1] + [t[k - 1]];
      }
    }
  }

  lemma SlotKeepsPace(s: Option<Node>, atS: nat, t: Option<Node>, atT: nat, fitsT: bool)
    requires RecordOf(s, atS) == RecordOf(t, atT) && atS <= atT
    requires s.Some? ==> s.value.rootTree != NONE
    requires t.Some? ==> t.value.rootTree != NONE
    requires s.Some? && s.value.extra != [] ==> atS < NONE
    requires s == ReadsAs(t, fitsT)
    ensures s == t || |TailOf(s)| < |TailOf(t)|
    ensures atS < atT ==> TailOf(s) == []
  {
  }

  /** The layout of a canonical array can be read back exactly when its tail fits. */
  lemma StandingIffFits(t: Strided<Node>)
    requires Canonical(t) && Told(t.slots)
    ensures Standing(Laid(t)) <==> Fits(t.slots)
  {
    hide LayTail, LayRecords, Fits, Told;
    if Fits(t.slots) {
      assert Stands(Laid(t), t);
    }
    if Standing(Laid(t)) {
      var s :| Stands(Laid(t), s);
      var n := |s.slots|;
      LayoutsKeepPace(s.slots, t.slots, n);
      assert s.slots[..n] == s.slots && t.slots[..n] == t.slots;
    }
  }

  // ------------------------------------------ which arrays lay out the same

  /** More extra parents than a count can say. */
  predicate Oversized(slot: Option<Node>)
  {
    slot.Some? && |slot.value.extra| > NONE
  }

  /** Slot `k` of two arrays agrees in all that is stored of it: in everything but
      its extra parents, and in those too while the tail before it has an offset. */
  ghost predicate SameSlot(s: seq<Option<Node>>, t: seq<Option<Node>>, k: nat)
    requires k < |s| && k < |t|
  {
    && ReadsAs(s[k], false) == ReadsAs(t[k], false)
    && (|LayTail(s[..k])| < NONE ==> s[k] == t[k] || (Oversized(s[k]) && Oversized(t[k])))
  }

  /** Two arrays agree slot by slot, and all their extra parents, in order, are the same list. */
  ghost predicate SameStored(s: Strided<Node>, t: Strided<Node>)
  {
    && s.first == t.first && |s.slots| == |t.slots| && LayTail(s.slots) == LayTail(t.slots)
    && forall k :: 0 <= k < |s.slots| ==> SameSlot(s.slots, t.slots, k)
  }

  /** The tails before slot `k` are of one length, or neither has an offset left. */
  ghost predicate InPace(s: seq<Option<Node>>, t: seq<Option<Node>>, k: nat)
    requires k <= |s| && k <= |t|
  {
    var p, q := |LayTail(s[..k])|, |LayTail(t[..k])|;
    p == q || (p >= NONE && q >= NONE)
  }

  lemma PaceStep(s: seq<Option<Node>>, t: seq<Option<Node>>, k: nat)
    requires k < |s| && k < |t| && InPace(s, t, k) && SameSlot(s, t, k)
    ensures InPace(s, t, k + 1)
  {
    hide LayTail;
    LayStep(s, k);
    LayStep(t, k);
  }

  lemma {:induction false} SameKeepsPace(s: seq<Option<Node>>, t: seq<Option<Node>>, k: nat)
    requires k <= |s| == |t| && forall i :: 0 <= i < k ==> SameSlot(s, t, i)
    ensures InPace(s, t, k)
  {
    hide SameSlot, LayTail;
    if k > 0 {
      SameKeepsPace(s, t, k - 1);
      PaceStep(s, t, k - 1);
    } else {
      assert s[..0] == t[..0];
    }
  }

  /** At one offset, equal records and equal tails leave only an oversized list unsaid. */
  lemma SlotIsSaid(a: Option<Node>, b: Option<Node>, pre: seq<int>, restA: seq<int>, preB: seq<int>, restB: seq<int>)
    requires pre + TailOf(a) + restA == preB + TailOf(b) + restB && |pre| == |preB| < NONE
    requires RecordOf(a, |pre|) == RecordOf(b, |pre|)
    requires a.Some? ==> a.value.rootTree != NONE
    requires b.Some? ==> b.value.rootTree != NONE
    ensures a == b || (Oversized(a) && Oversized(b))
  {
    var tail, p := pre + TailOf(a) + restA, |pre|;
    if a.Some? && b.Some? && a.value.extra != [] && b.value.extra != [] {
      assert tail[p] == TailOf(a)[0] == TailOf(b)[0];
      assert tail[p + 1..p + 1 + |a.value.extra|] == a.value.extra;
      assert tail[p + 1..p + 1 + |b.value.extra|] == b.value.extra;
    }
  }

  lemma {:induction false} LaidIsSaid(s: seq<Option<Node>>, t: seq<Option<Node>>, k: nat)
    requires Told(s) && Told(t) && LayRecords(s) == LayRecords(t) && LayTail(s) == LayTail(t) && k <= |s| == |t|
    ensures InPace(s, t, k) && forall i :: 0 <= i < k ==> SameSlot(s, t, i)
  {
    hide LayTail, TailOf, RecordOf, InPace, SameSlot;
    if k > 0 {
      LaidIsSaid(s, t, k - 1);
      SlotIsSame(s, t, k - 1);
      PaceStep(s, t, k - 1);
    } else {
      SameKeepsPace(s, t, 0);
    }
  }

  lemma SlotIsSame(s: seq<Option<Node>>, t: seq<Option<Node>>, k: nat)
    requires Told(s) && Told(t) && LayRecords(s) == LayRecords(t) && LayTail(s) == LayTail(t) && k < |s| == |t|
    requires InPace(s, t, k)
    ensures SameSlot(s, t, k)
  {
    hide LayTail;
    assert LayRecords(s)[k] == LayRecords(t)[k];
    if |LayTail(s[..k])| < NONE {
      assert s[..|s|] == s && t[..|t|] == t;
      var restS := LaySplits(s, k, |s|);
      var restT := LaySplits(t, k, |t|);
      SlotIsSaid(s[k], t[k], LayTail(s[..k]), restS, LayTail(t[..k]), restT);
    }
  }

  /** Two arrays have one layout exactly when the same is stored of both. */
  lemma LaidIffSameStored(s: Strided<Node>, t: Strided<Node>)
    requires Told(s.slots) && Told(t.slots)
    ensures Laid(s) == Laid(t) <==> SameStored(s, t)
  {
    hide LayTail, InPace, SameSlot, Told;
    if Laid(s) == Laid(t) {
      assert |s.slots| == |LayRecords(s.slots)| == |t.slots|;
      LaidIsSaid(s.slots, t.slots, |s.slots|);
    }
    if SameStored(s, t) {
      forall k | 0 <= k < |s.slots| ensures LayRecords(s.slots)[k] == LayRecords(t.slots)[k] {
        SameKeepsPace(s.slots, t.slots, k);
        SameRecord(s.slots, t.slots, k);
      }
      assert LayRecords(s.slots) == LayRecords(t.slots);
    }
  }

  lemma SameRecord(s: seq<Option<Node>>, t: seq<Option<Node>>, k: nat)
    requires k < |s| == |t| && InPace(s, t, k) && SameSlot(s, t, k)
    ensures RecordOf(s[k], |LayTail(s[..k])|) == RecordOf(t[k], |LayTail(t[..k])|)
  {
    hide LayTail;
  }

  /** The map an index answers with, as an array. */
  ghost predicate Behind(index: CommitIndex, s: Strided<Node>)
  {
    Canonical(s) && forall x :: Get(s, x) == Lookup(index, x)
  }

  lemma BehindIsOne(index: CommitIndex, s: Strided<Node>, t: Strided<Node>)
    requires Behind(index, s) && Behind(index, t)
    ensures s == t
  {
    hide Lookup, Canonical;
    forall x ensures Get(s, x) == Get(t, x) {
      assert Get(s, x) == Lookup(index, x);
    }
    CanonicalIsUnique(s, t);
  }

  lemma StandsBehind(index: CommitIndex, s: Strided<Node>)
    requires Stands(index, s)
    ensures Behind(index, s)
  {
    hide Lookup, Laid;
    forall x ensures Get(s, x) == Lookup(index, x) {
      LookupIsGet(index, s, x);
    }
  }

  /** Whatever is read can be told from a hole. */
  lemma BehindIsTold(index: CommitIndex, s: Strided<Node>)
    requires Behind(index, s)
    ensures Told(s.slots)
  {
    forall k | 0 <= k < |s.slots| && s.slots[k].Some? ensures s.slots[k].value.rootTree != NONE {
      assert Get(s, s.first + k) == Lookup(index, s.first + k);
    }
  }

  /** An index can be read back exactly when laying out what it reads as gives it again. */
  lemma StandingIffRelaid(index: CommitIndex, s: Strided<Node>)
    requires Behind(index, s)
    ensures Standing(index) <==> index == Laid(s)
  {
    hide LayTail, RecordOf, ReadNode, Fits, Told;
    BehindIsTold(index, s);
    if Standing(index) {
      var t :| Stands(index, t);
      StandsBehind(index, t);
      BehindIsOne(index, s, t);
    }
    if index == Laid(s) {
      forall k | 0 <= k < |s.slots| ensures ReadSlots(index)[k] == s.slots[k] {
        assert Get(s, s.first + k) == Lookup(index, s.first + k);
      }
      assert ReadSlots(index) == s.slots;
      ReadsBackIffFits(s.slots, s.first);
      assert Stands(index, s);
    }
  }

  // -------------------------------------------------------------------- join

  /** No slot holds a commit. */
  ghost predicate Empty(index: CommitIndex)
  {
    forall k :: 0 <= k < |index.records| ==> !index.records[k].Present()
  }

  method IsEmpty(index: CommitIndex) returns (yes: bool)
    ensures yes <==> Empty(index)
  {
    var k := |index.records|;
    while k > 0
      invariant 0 <= k <= |index.records|
      invariant forall i :: k <= i < |index.records| ==> !index.records[i].Present()
    {
      k := k - 1;
      if index.records[k].Present() {
        return false;
      }
    }
    yes := true;
  }

  /** `s` is the join of what the two indexes read as. */
  ghost predicate Joint(a: CommitIndex, b: CommitIndex, s: Strided<Node>)
  {
    exists sa, sb :: Behind(a, sa) && Behind(b, sb) && IsJoin(NodeLess(), sa, sb, s)
  }

  /** What joining two indexes gives: the other where one is empty, else both laid out anew as one. */
  ghost predicate JoinOf(a: CommitIndex, b: CommitIndex, r: CommitIndex)
  {
    if Empty(b) then r == a
    else if Empty(a) then r == b
    else exists s :: Joint(a, b, s) && r == Laid(s)
  }

  /** The tail two indexes share when joined fits. */
  ghost predicate JointFits(a: CommitIndex, b: CommitIndex)
  {
    exists s :: Joint(a, b, s) && Fits(s.slots)
  }

  /** Joins any two indexes. What was laid out anew can be read back exactly
      when the joined tail fits. */
  method Join(a: CommitIndex, b: CommitIndex) returns (r: CommitIndex)
    ensures JoinOf(a, b, r)
    ensures !Empty(a) && !Empty(b) ==> (Standing(r) <==> JointFits(a, b))
  {
    hide Told, Fits, Laid, Lookup, Canonical, Standing;
    var nothing := IsEmpty(b);
    if nothing {
      return a;
    }
    nothing := IsEmpty(a);
    if nothing {
      return b;
    }
    var mine := Nodes(a);
    NodesAreBehind(a, mine);
    var theirs := Nodes(b);
    NodesAreBehind(b, theirs);
    var both := Joined(NodeLess(), mine, theirs);
    assert Joint(a, b, both);
    r := Assemble(both);
    JointIsTold(a, b, both);
    StandingIffFits(both);
    if JointFits(a, b) {
      var s :| Joint(a, b, s) && Fits(s.slots);
      JointIsOne(a, b, s, both);
    }
  }

  lemma NodesAreBehind(index: CommitIndex, nodes: Strided<Node>)
    requires Canonical(nodes) && forall x :: Get(nodes, x) == Get(Strided(index.first, ReadSlots(index)), x)
    ensures Behind(index, nodes)
  {
    hide ReadNode;
    forall x ensures Get(nodes, x) == Lookup(index, x) {
      assert Get(nodes, x) == Get(Strided(index.first, ReadSlots(index)), x);
    }
  }

  lemma JointIsOne(a: CommitIndex, b: CommitIndex, s: Strided<Node>, t: Strided<Node>)
    requires Joint(a, b, s) && Joint(a, b, t)
    ensures s == t
  {
    hide Behind, Canonical;
    var sa, sb :| Behind(a, sa) && Behind(b, sb) && IsJoin(NodeLess(), sa, sb, s);
    var ta, tb :| Behind(a, ta) && Behind(b, tb) && IsJoin(NodeLess(), ta, tb, t);
    BehindIsOne(a, sa, ta);
    BehindIsOne(b, sb, tb);
    forall x ensures Get(s, x) == Get(t, x) {
      assert Get(s, x) == Greater(NodeLess(), Get(sa, x), Get(sb, x));
    }
    CanonicalIsUnique(s, t);
  }

  /** The join of two answers at a seq. */
  ghost function Best(a: CommitIndex, b: CommitIndex, x: int): Option<Node>
  {
    Greater(NodeLess(), Lookup(a, x), Lookup(b, x))
  }

  lemma JointIsBest(a: CommitIndex, b: CommitIndex, s: Strided<Node>, x: int)
    requires Joint(a, b, s)
    ensures Get(s, x) == Best(a, b, x)
  {
    hide Lookup, Canonical;
    var sa, sb :| Behind(a, sa) && Behind(b, sb) && IsJoin(NodeLess(), sa, sb, s);
    assert Get(sa, x) == Lookup(a, x) && Get(sb, x) == Lookup(b, x);
    assert Get(s, x) == Greater(NodeLess(), Get(sa, x), Get(sb, x));
  }

  lemma JointIsTold(a: CommitIndex, b: CommitIndex, s: Strided<Node>)
    requires Joint(a, b, s)
    ensures Canonical(s) && Told(s.slots)
  {
    hide Lookup, Canonical, Behind;
    var sa, sb :| Behind(a, sa) && Behind(b, sb) && IsJoin(NodeLess(), sa, sb, s);
    BehindIsTold(a, sa);
    BehindIsTold(b, sb);
    forall k | 0 <= k < |s.slots| && s.slots[k].Some? ensures s.slots[k].value.rootTree != NONE {
      var x := s.first + k;
      assert Get(s, x) == Greater(NodeLess(), Get(sa, x), Get(sb, x));
    }
  }

  lemma EmptyAnswersNothing(index: CommitIndex, x: int)
    requires Empty(index)
    ensures Lookup(index, x) == None
  {
  }

  // ---------------------------------------------------------- the join's laws

  lemma {:induction false} LexPrefix(a: seq<int>, b: seq<int>)
    requires b != []
    ensures LexLess(a, a + b)
  {
    if a == [] {
      assert a + b == b;
    } else {
      LexPrefix(a[1..], b);
      assert (a + b)[1..] == a[1..] + b;
    }
  }

  /** Losing its extra parents lowers a node. */
  lemma CutIsLess(n: Node)
    requires n.extra != []
    ensures NodeLess()(n.(extra := []), n)
  {
    LexPrefix([n.generation, n.rootTree, n.parent1, n.parent2], n.extra);
    assert Key(n.(extra := [])) == [n.generation, n.rootTree, n.parent1, n.parent2];
  }

  /** Whether the slot at a seq, if there is one, fits. */
  ghost predicate FitsAt(s: Strided<Node>, x: int)
  {
    s.first <= x < s.first + |s.slots| ==> SlotFits(s.slots, x - s.first)
  }

  /** What an array reads as once laid out. */
  lemma LaidAnswers(s: Strided<Node>, x: int)
    requires Told(s.slots)
    ensures Lookup(Laid(s), x) == ReadsAs(Get(s, x), FitsAt(s, x))
  {
    hide LayTail, RecordOf, ReadNode, Told;
    if s.first <= x < s.first + |s.slots| {
      SlotReadsBack(s.slots, x - s.first);
    }
  }

  /** Two answers, the first not above the second. */
  ghost predicate AtMost(a: Option<Node>, b: Option<Node>)
  {
    a == b || (a.Some? && b.Some? && NodeLess()(a.value, b.value))
  }

  lemma ReadsAtMost(slot: Option<Node>, fits: bool)
    ensures AtMost(ReadsAs(slot, fits), slot)
  {
    hide NodeLess;
    if slot.Some? && slot.value.extra != [] {
      CutIsLess(slot.value);
    } else if slot.Some? {
      assert slot.value.(extra := []) == slot.value;
    }
  }

  /** Every join of two indexes answers the best of the two, or that without
      its extra parents where the joined tail has no room for them. */
  lemma JoinAnswers(a: CommitIndex, b: CommitIndex, r: CommitIndex, x: int)
    requires JoinOf(a, b, r)
    ensures AtMost(Lookup(r, x), Best(a, b, x))
    ensures Empty(a) || Empty(b) ==> Lookup(r, x) == Best(a, b, x)
    ensures forall s :: !Empty(a) && !Empty(b) && Joint(a, b, s) ==>
      Lookup(r, x) == ReadsAs(Best(a, b, x), FitsAt(s, x))
  {
    hide Laid, Lookup, Joint, FitsAt, NodeLess, ReadsAs;
    if Empty(b) {
      EmptyAnswersNothing(b, x);
    } else if Empty(a) {
      EmptyAnswersNothing(a, x);
    } else {
      var s :| Joint(a, b, s) && r == Laid(s);
      JointIsTold(a, b, s);
      LaidAnswers(s, x);
      JointIsBest(a, b, s, x);
      ReadsAtMost(Best(a, b, x), FitsAt(s, x));
      forall t | Joint(a, b, t) ensures t == s {
        JointIsOne(a, b, s, t);
      }
    }
  }

  /** A join answers the best of its sides everywhere exactly when one is empty or the joined tail fits. */
  lemma JoinIsExactIffFits(a: CommitIndex, b: CommitIndex, r: CommitIndex)
    requires JoinOf(a, b, r)
    ensures (forall x :: Lookup(r, x) == Best(a, b, x)) <==> Empty(a) || Empty(b) || JointFits(a, b)
  {
    hide Laid, Lookup, Joint, NodeLess, LayTail;
    forall x ensures Empty(a) || Empty(b) ==> Lookup(r, x) == Best(a, b, x) {
      JoinAnswers(a, b, r, x);
    }
    if !Empty(a) && !Empty(b) {
      var s :| Joint(a, b, s) && r == Laid(s);
      JointIsTold(a, b, s);
      if JointFits(a, b) {
        var t :| Joint(a, b, t) && Fits(t.slots);
        JointIsOne(a, b, s, t);
        forall x ensures Lookup(r, x) == Best(a, b, x) {
          JoinAnswers(a, b, r, x);
        }
      }
      if forall x :: Lookup(r, x) == Best(a, b, x) {
        forall k | 0 <= k < |s.slots| ensures SlotFits(s.slots, k) {
          ExactSlotFits(a, b, r, s, k);
        }
      }
    }
  }

  lemma ExactSlotFits(a: CommitIndex, b: CommitIndex, r: CommitIndex, s: Strided<Node>, k: nat)
    requires Joint(a, b, s) && r == Laid(s) && k < |s.slots|
    requires Lookup(r, s.first + k) == Best(a, b, s.first + k)
    ensures SlotFits(s.slots, k)
  {
    hide Joint, NodeLess, LayTail, RecordOf, ReadNode;
    JointIsTold(a, b, s);
    JointIsBest(a, b, s, s.first + k);
    SlotReadsBack(s.slots, k);
  }

  /** The best of three answers at a seq. */
  ghost function BestOf3(a: CommitIndex, b: CommitIndex, c: CommitIndex, x: int): Option<Node>
  {
    Greater(NodeLess(), Best(a, b, x), Lookup(c, x))
  }

  /** The first join kept its answer, or the third index overrides what it lost. */
  ghost predicate Kept(a: CommitIndex, b: CommitIndex, c: CommitIndex, ab: CommitIndex, x: int)
  {
    Lookup(ab, x) == Best(a, b, x) || (Lookup(c, x).Some? && AtMost(Best(a, b, x), Lookup(c, x)))
  }

  /** Of an answer lowered and a third, the best is the best of the original and
      the third exactly when nothing was lost or the third is no lower. */
  lemma LoweredBest(low: Option<Node>, high: Option<Node>, c: Option<Node>, r: Option<Node>)
    requires AtMost(low, high) && AtMost(r, Greater(NodeLess(), low, c))
    ensures r == Greater(NodeLess(), high, c) <==>
      (low == high || (c.Some? && AtMost(high, c))) && r == Greater(NodeLess(), low, c)
  {
    NodesAreOrdered();
    hide NodeLess;
    assert TotalOrder(NodeLess());
  }

  /** Joining three in turn answers the best of the three everywhere exactly when
      whatever the first join lost to overflow the third overrides, and the last
      join itself loses nothing. */
  lemma ThreeWayIsExactIff(a: CommitIndex, b: CommitIndex, c: CommitIndex, ab: CommitIndex, r: CommitIndex)
    requires JoinOf(a, b, ab) && JoinOf(ab, c, r)
    ensures (forall x :: Lookup(r, x) == BestOf3(a, b, c, x)) <==>
      (forall x :: Kept(a, b, c, ab, x)) && (Empty(ab) || Empty(c) || JointFits(ab, c))
  {
    hide Lookup, NodeLess, JointFits, Empty, JoinOf;
    forall x ensures Lookup(r, x) == BestOf3(a, b, c, x) <==> Kept(a, b, c, ab, x) && Lookup(r, x) == Best(ab, c, x) {
      JoinAnswers(a, b, ab, x);
      JoinAnswers(ab, c, r, x);
      LoweredBest(Lookup(ab, x), Best(a, b, x), Lookup(c, x), Lookup(r, x));
    }
    JoinIsExactIffFits(ab, c, r);
  }

  lemma JoinIsOne(a: CommitIndex, b: CommitIndex, r: CommitIndex, s: CommitIndex)
    requires JoinOf(a, b, r) && JoinOf(a, b, s)
    ensures r == s
  {
    hide Laid, Joint, Empty;
    if !Empty(a) && !Empty(b) {
      var sr :| Joint(a, b, sr) && r == Laid(sr);
      var ss :| Joint(a, b, ss) && s == Laid(ss);
      JointIsOne(a, b, sr, ss);
    }
  }

  /** Which of two layouts is joined into the other does not matter, whether or not their tails fit. */
  lemma IndexJoinCommutes(a: CommitIndex, b: CommitIndex, r: CommitIndex, s: CommitIndex)
    requires IsLayout(a) && IsLayout(b) && JoinOf(a, b, r) && JoinOf(b, a, s)
    ensures r == s
  {
    hide Laid, Joint, Canonical;
    if Empty(a) && Empty(b) {
      EmptyLayoutIsOne(a);
      EmptyLayoutIsOne(b);
    } else if !Empty(a) && !Empty(b) {
      var sr :| Joint(a, b, sr) && r == Laid(sr);
      var ss :| Joint(b, a, ss) && s == Laid(ss);
      JointCommutes(a, b, sr, ss);
    }
  }

  lemma JointCommutes(a: CommitIndex, b: CommitIndex, s: Strided<Node>, t: Strided<Node>)
    requires Joint(a, b, s) && Joint(b, a, t)
    ensures s == t
  {
    hide Behind, Canonical, NodeLess;
    var sa, sb :| Behind(a, sa) && Behind(b, sb) && IsJoin(NodeLess(), sa, sb, s);
    var tb, ta :| Behind(b, tb) && Behind(a, ta) && IsJoin(NodeLess(), tb, ta, t);
    BehindIsOne(a, sa, ta);
    BehindIsOne(b, sb, tb);
    NodesAreOrdered();
    JoinCommutes(NodeLess(), sa, sb, s, t);
  }

  lemma OccupiedIsNotEmpty(s: Strided<Node>)
    requires Canonical(s) && Told(s.slots) && s.slots != []
    ensures !Empty(Laid(s))
  {
    hide LayTail;
    assert LayRecords(s.slots)[0].Present();
  }

  lemma EmptyLayoutIsOne(index: CommitIndex)
    requires IsLayout(index) && Empty(index)
    ensures index == CommitIndex(0, [], []) && Standing(index)
  {
    hide Empty;
    var s :| Canonical(s) && Told(s.slots) && index == Laid(s);
    if s.slots != [] {
      OccupiedIsNotEmpty(s);
    }
    assert Stands(index, s);
  }

  lemma NotEmptyAnswers(index: CommitIndex) returns (x: int)
    requires !Empty(index)
    ensures Lookup(index, x).Some?
  {
    var k :| 0 <= k < |index.records| && index.records[k].Present();
    x := index.first + k;
  }

  /** A join of two that are not empty is not. */
  lemma JoinIsNotEmpty(a: CommitIndex, b: CommitIndex, r: CommitIndex)
    requires JoinOf(a, b, r) && !(Empty(a) && Empty(b))
    ensures !Empty(r)
  {
    hide Lookup, Empty, JoinOf, NodeLess;
    var x;
    if !Empty(a) {
      x := NotEmptyAnswers(a);
    } else {
      x := NotEmptyAnswers(b);
    }
    JoinAnswers(a, b, r, x);
    if Empty(r) {
      EmptyAnswersNothing(r, x);
    }
  }

  /** With one of three empty, which pair is joined first never matters. */
  lemma EmptyAssociates(a: CommitIndex, b: CommitIndex, c: CommitIndex,
                        ab: CommitIndex, bc: CommitIndex, r: CommitIndex, s: CommitIndex)
    requires JoinOf(a, b, ab) && JoinOf(ab, c, r) && JoinOf(b, c, bc) && JoinOf(a, bc, s)
    requires Empty(a) || Empty(b) || Empty(c)
    ensures r == s
  {
    hide Laid, Joint, Empty, Standing;
    if Empty(c) {
      JoinIsOne(a, b, ab, s);
    } else if Empty(b) {
      JoinIsOne(a, c, r, s);
    } else {
      JoinIsOne(b, c, bc, r);
      JoinIsNotEmpty(b, c, bc);
    }
  }

  /** When which pair is joined first does not matter, for any three indexes: always
      if one is empty, else exactly when the same is stored of the two last joins. */
  lemma AssociatesIffSameStored(a: CommitIndex, b: CommitIndex, c: CommitIndex, ab: CommitIndex, bc: CommitIndex,
                                r: CommitIndex, s: CommitIndex, u: Strided<Node>, v: Strided<Node>)
    requires JoinOf(a, b, ab) && JoinOf(ab, c, r) && JoinOf(b, c, bc) && JoinOf(a, bc, s)
    requires Joint(ab, c, u) && Joint(a, bc, v)
    ensures r == s <==> Empty(a) || Empty(b) || Empty(c) || SameStored(u, v)
  {
    hide Laid, Joint, Empty, Standing, SameStored, Told, Canonical;
    if Empty(a) || Empty(b) || Empty(c) {
      EmptyAssociates(a, b, c, ab, bc, r, s);
    } else {
      JoinIsNotEmpty(a, b, ab);
      JoinIsNotEmpty(b, c, bc);
      JoinIsLaid(ab, c, r, u);
      JoinIsLaid(a, bc, s, v);
      JointIsTold(ab, c, u);
      JointIsTold(a, bc, v);
      LaidIffSameStored(u, v);
    }
  }

  lemma JoinIsLaid(a: CommitIndex, b: CommitIndex, r: CommitIndex, s: Strided<Node>)
    requires JoinOf(a, b, r) && !Empty(a) && !Empty(b) && Joint(a, b, s)
    ensures r == Laid(s)
  {
    hide Laid, Joint, Empty;
    var t :| Joint(a, b, t) && r == Laid(t);
    JointIsOne(a, b, s, t);
  }

  /** Two joins with the same best answers everywhere are the same index, and where
      either can be read back, only then. */
  lemma SameJoinIffSameBest(a: CommitIndex, b: CommitIndex, r: CommitIndex, c: CommitIndex, d: CommitIndex,
                            s: CommitIndex)
    requires JoinOf(a, b, r) && JoinOf(c, d, s) && !Empty(a) && !Empty(b) && !Empty(c) && !Empty(d)
    ensures (forall x :: Best(a, b, x) == Best(c, d, x)) ==> r == s
    ensures Standing(r) || Standing(s) ==> (r == s <==> forall x :: Best(a, b, x) == Best(c, d, x))
  {
    hide Laid, Joint, Empty, Best, Standing, Lookup, Canonical, Fits, Told;
    var u :| Joint(a, b, u) && r == Laid(u);
    var v :| Joint(c, d, v) && s == Laid(v);
    JointIsTold(a, b, u);
    JointIsTold(c, d, v);
    forall x ensures Get(u, x) == Best(a, b, x) && Get(v, x) == Best(c, d, x) {
      JointIsBest(a, b, u, x);
      JointIsBest(c, d, v, x);
    }
    if forall x :: Best(a, b, x) == Best(c, d, x) {
      CanonicalIsUnique(u, v);
    }
    if r == s && (Standing(r) || Standing(s)) {
      StandingIffFits(u);
      StandingIffFits(v);
      JoinIsExactIffFits(a, b, r);
      JoinIsExactIffFits(c, d, s);
      forall x ensures Best(a, b, x) == Best(c, d, x) {
        assert Lookup(r, x) == Best(a, b, x) && Lookup(s, x) == Best(c, d, x);
      }
    }
  }

  /** Where either result can be read back, the grouping does not matter exactly when
      the two last joins choose the same answers. */
  lemma AssociatesIffSameBest(a: CommitIndex, b: CommitIndex, c: CommitIndex,
                              ab: CommitIndex, bc: CommitIndex, r: CommitIndex, s: CommitIndex)
    requires JoinOf(a, b, ab) && JoinOf(ab, c, r) && JoinOf(b, c, bc) && JoinOf(a, bc, s)
    requires !Empty(a) && !Empty(b) && !Empty(c)
    ensures (forall x :: Best(ab, c, x) == Best(a, bc, x)) ==> r == s
    ensures Standing(r) || Standing(s) ==> (r == s <==> forall x :: Best(ab, c, x) == Best(a, bc, x))
  {
    hide JoinOf, Empty, Best, Standing;
    JoinIsNotEmpty(a, b, ab);
    JoinIsNotEmpty(b, c, bc);
    SameJoinIffSameBest(ab, c, r, a, bc, s);
  }

  /** A join of two that are not empty, if it can be read back, answers the best. */
  lemma StandingIsExact(a: CommitIndex, b: CommitIndex, r: CommitIndex, x: int)
    requires JoinOf(a, b, r) && !Empty(a) && !Empty(b) && Standing(r)
    ensures Lookup(r, x) == Best(a, b, x)
  {
    hide Laid, Joint, Empty, Best, Standing, Lookup, Canonical, Fits, Told;
    var s :| Joint(a, b, s) && r == Laid(s);
    JointIsTold(a, b, s);
    StandingIffFits(s);
    JoinIsExactIffFits(a, b, r);
  }

  /** The best of three does not depend on the grouping. */
  lemma BestAssociates(a: Option<Node>, b: Option<Node>, c: Option<Node>)
    ensures Greater(NodeLess(), a, Greater(NodeLess(), b, c)) == Greater(NodeLess(), Greater(NodeLess(), a, b), c)
    ensures Greater(NodeLess(), a, b) == Greater(NodeLess(), b, a)
  {
    NodesAreOrdered();
    hide NodeLess;
    assert TotalOrder(NodeLess());
  }

  lemma KeptIsBest(a: CommitIndex, b: CommitIndex, c: CommitIndex, ab: CommitIndex, x: int)
    requires JoinOf(a, b, ab)
    ensures Best(ab, c, x) == BestOf3(a, b, c, x) <==> Kept(a, b, c, ab, x)
  {
    hide Lookup, NodeLess, JoinOf, AtMost;
    JoinAnswers(a, b, ab, x);
    AtMostItself(Best(ab, c, x));
    LoweredBest(Lookup(ab, x), Best(a, b, x), Lookup(c, x), Best(ab, c, x));
  }

  lemma AtMostItself(o: Option<Node>)
    ensures AtMost(o, o)
  {
  }

  /** Known before the last join: where the second grouping loses nothing, the first agrees with it
      exactly when the third index overrides whatever the first pair lost. */
  lemma AssociatesIffLeftKept(a: CommitIndex, b: CommitIndex, c: CommitIndex,
                              ab: CommitIndex, bc: CommitIndex, r: CommitIndex, s: CommitIndex)
    requires JoinOf(a, b, ab) && JoinOf(ab, c, r) && JoinOf(b, c, bc) && JoinOf(a, bc, s)
    requires !Empty(a) && !Empty(b) && !Empty(c) && Standing(bc) && Standing(s)
    ensures r == s <==> forall x :: Kept(a, b, c, ab, x)
  {
    hide JoinOf, Empty, Standing, Lookup, NodeLess, Kept;
    forall x ensures Best(ab, c, x) == Best(a, bc, x) <==> Kept(a, b, c, ab, x) {
      StandingIsExact(b, c, bc, x);
      BestAssociates(Lookup(a, x), Lookup(b, x), Lookup(c, x));
      KeptIsBest(a, b, c, ab, x);
    }
    AssociatesIffSameBest(a, b, c, ab, bc, r, s);
  }

  /** The same of the other grouping: the first index overrides whatever the last pair lost. */
  lemma AssociatesIffRightKept(a: CommitIndex, b: CommitIndex, c: CommitIndex,
                               ab: CommitIndex, bc: CommitIndex, r: CommitIndex, s: CommitIndex)
    requires JoinOf(a, b, ab) && JoinOf(ab, c, r) && JoinOf(b, c, bc) && JoinOf(a, bc, s)
    requires !Empty(a) && !Empty(b) && !Empty(c) && Standing(ab) && Standing(r)
    ensures r == s <==> forall x :: Kept(b, c, a, bc, x)
  {
    hide JoinOf, Empty, Standing, Lookup, NodeLess, Kept;
    forall x ensures Best(ab, c, x) == Best(a, bc, x) <==> Kept(b, c, a, bc, x) {
      StandingIsExact(a, b, ab, x);
      BestAssociates(Lookup(a, x), Lookup(b, x), Lookup(c, x));
      BestAssociates(Lookup(a, x), Best(b, c, x), None);
      BestAssociates(Lookup(a, x), Lookup(bc, x), None);
      KeptIsBest(b, c, a, bc, x);
    }
    AssociatesIffSameBest(a, b, c, ab, bc, r, s);
  }

  /** Nothing was laid out anew, or what was can be read back. */
  ghost predicate Lossless(a: CommitIndex, b: CommitIndex, ab: CommitIndex)
  {
    Empty(a) || Empty(b) || Standing(ab)
  }

  /** In particular, which pair is joined first does not matter while neither first join loses anything. */
  lemma IndexJoinAssociates(a: CommitIndex, b: CommitIndex, c: CommitIndex,
                            ab: CommitIndex, bc: CommitIndex, r: CommitIndex, s: CommitIndex)
    requires JoinOf(a, b, ab) && JoinOf(ab, c, r) && JoinOf(b, c, bc) && JoinOf(a, bc, s)
    requires Lossless(a, b, ab) && Lossless(b, c, bc)
    ensures r == s
  {
    hide JoinOf, Empty, Standing, Lookup, NodeLess;
    if Empty(a) || Empty(b) || Empty(c) {
      EmptyAssociates(a, b, c, ab, bc, r, s);
    } else {
      forall x ensures Best(ab, c, x) == Best(a, bc, x) {
        StandingIsExact(a, b, ab, x);
        StandingIsExact(b, c, bc, x);
        BestAssociates(Lookup(a, x), Lookup(b, x), Lookup(c, x));
      }
      AssociatesIffSameBest(a, b, c, ab, bc, r, s);
    }
  }

  /** A layout joined with itself is itself exactly when it can be read back. */
  lemma IndexJoinIsIdempotent(index: CommitIndex, r: CommitIndex)
    requires IsLayout(index) && JoinOf(index, index, r)
    ensures r == index <==> Standing(index)
  {
    hide Laid, Behind, Canonical, Standing;
    if Empty(index) {
      EmptyLayoutIsOne(index);
    } else {
      var s :| Joint(index, index, s) && r == Laid(s);
      var sa, sb :| Behind(index, sa) && Behind(index, sb) && IsJoin(NodeLess(), sa, sb, s);
      BehindIsOne(index, sa, sb);
      NodesAreOrdered();
      BehindIsCanonical(index, sa);
      JoinIsIdempotent(NodeLess(), sa, s);
      StandingIffRelaid(index, sa);
    }
  }

  lemma BehindIsCanonical(index: CommitIndex, s: Strided<Node>)
    requires Behind(index, s)
    ensures Canonical(s)
  {
  }

  /** Two segments that agree where they overlap lose nothing in a join whose tail fits. */
  lemma AgreeingJoinKeepsBoth(a: CommitIndex, b: CommitIndex, r: CommitIndex, x: int)
    requires JoinOf(a, b, r) && (Empty(a) || Empty(b) || JointFits(a, b))
    requires Lookup(a, x).Some? && Lookup(b, x).Some? ==> Lookup(a, x) == Lookup(b, x)
    ensures Lookup(a, x).Some? ==> Lookup(r, x) == Lookup(a, x)
    ensures Lookup(b, x).Some? ==> Lookup(r, x) == Lookup(b, x)
  {
    hide Lookup, JoinOf, JointFits, Empty;
    JoinIsExactIffFits(a, b, r);
    assert Lookup(r, x) == Best(a, b, x);
  }

  // ------------------------------------------------- where associativity ends

  /** One array slot of a commit with these extra parents. */
  function Octopus(x: int, extra: seq<int>): Strided<Node>
  {
    Strided(x, [Some(Node(1, 0, 0, 0, extra))])
  }

  lemma OctopusStands(x: int, extra: seq<int>)
    requires |extra| <= NONE
    ensures Stands(Laid(Octopus(x, extra)), Octopus(x, extra))
    ensures !Empty(Laid(Octopus(x, extra))) && IsLayout(Laid(Octopus(x, extra)))
  {
    var s := Octopus(x, extra);
    assert LayTail(s.slots[..0]) == [];
    assert SlotFits(s.slots, 0);
    assert Laid(s).records[0].Present();
    assert Stands(Laid(s), s);
  }

  /** A commit's tail of the greatest count, so that nothing after it fits. */
  ghost function Longest(): seq<int>
  {
    seq(NONE, _ => 0)
  }

  /** Two slots: the longest tail, and another commit's after it. */
  ghost function Crowded(extra: seq<int>): Strided<Node>
  {
    Strided(0, [Some(Node(1, 0, 0, 0, Longest())), Some(Node(1, 0, 0, 0, extra))])
  }

  lemma CrowdedTail(extra: seq<int>)
    requires extra != [] && |extra| <= NONE
    ensures LayTail(Crowded(extra).slots) == [NONE] + Longest() + [|extra|] + extra
    ensures !SlotFits(Crowded(extra).slots, 1)
  {
    var slots := Crowded(extra).slots;
    assert slots[..0] == [] && slots[..1] == [slots[0]] && slots[..2] == slots;
    LayStep(slots, 0);
    LayStep(slots, 1);
  }

  /** Four joins, of which one pairing overflows on the way, that disagree. */
  lemma OverflowBreaksAssociativity()
    returns (a: CommitIndex, b: CommitIndex, c: CommitIndex, ab: CommitIndex, bc: CommitIndex, r: CommitIndex,
             s: CommitIndex)
    ensures Standing(a) && Standing(b) && Standing(c) && Standing(bc) && !Standing(ab)
    ensures JoinOf(a, b, ab) && JoinOf(ab, c, r) && JoinOf(b, c, bc) && JoinOf(a, bc, s)
    ensures r != s
  {
    hide LayTail, LayRecords, Lookup, Fits, Told, Empty;
    var sa, sb, sc := Octopus(0, Longest()), Octopus(1, [7]), Octopus(1, [5]);
    OctopusStands(0, Longest());
    OctopusStands(1, [7]);
    OctopusStands(1, [5]);
    a, b, c, bc := Laid(sa), Laid(sb), Laid(sc), Laid(sb);
    StandsBehind(a, sa);
    StandsBehind(b, sb);
    StandsBehind(c, sc);
    ab, s, r := Laid(Crowded([7])), Laid(Crowded([7])), Laid(Crowded([5]));
    CrowdedJoins(a, b, [7]);
    SevenBeatsFive(b, c);
    CrowdedReads(ab, c);
    CrowdedTail([7]);
    CrowdedTail([5]);
    assert ab.tail[|ab.tail| - 1] == 7 && r.tail[|r.tail| - 1] == 5;
    CrowdedOverflows();
  }

  lemma CrowdedJoins(a: CommitIndex, b: CommitIndex, extra: seq<int>)
    requires Behind(a, Octopus(0, Longest())) && Behind(b, Octopus(1, extra)) && !Empty(a) && !Empty(b)
    ensures Joint(a, b, Crowded(extra)) && JoinOf(a, b, Laid(Crowded(extra)))
  {
    hide Laid, Lookup, LayTail;
    assert IsJoin(NodeLess(), Octopus(0, Longest()), Octopus(1, extra), Crowded(extra));
  }

  lemma SevenBeatsFive(b: CommitIndex, c: CommitIndex)
    requires Behind(b, Octopus(1, [7])) && Behind(c, Octopus(1, [5])) && !Empty(b) && !Empty(c)
    ensures JoinOf(b, c, Laid(Octopus(1, [7])))
  {
    hide Laid, Lookup, LayTail;
    var seven, five := Node(1, 0, 0, 0, [7]), Node(1, 0, 0, 0, [5]);
    assert !NodeLess()(seven, five) by {
      LexShared([1, 0, 0, 0], [7], [5]);
    }
    assert IsJoin(NodeLess(), Octopus(1, [7]), Octopus(1, [5]), Octopus(1, [7]));
  }

  lemma {:induction false} LexShared(pre: seq<int>, a: seq<int>, b: seq<int>)
    ensures LexLess(pre + a, pre + b) <==> LexLess(a, b)
  {
    if pre == [] {
      assert pre + a == a && pre + b == b;
    } else {
      LexShared(pre[1..], a, b);
      assert (pre + a)[1..] == pre[1..] + a && (pre + b)[1..] == pre[1..] + b;
    }
  }

  /** The crowded commit reads without its extra parents, so the third index's wins. */
  lemma CrowdedReads(ab: CommitIndex, c: CommitIndex)
    requires ab == Laid(Crowded([7])) && Behind(c, Octopus(1, [5])) && !Empty(c)
    ensures JoinOf(ab, c, Laid(Crowded([5])))
  {
    hide Lookup, LayTail, LayRecords, Empty;
    var cut, whole := Strided(0, [Crowded([7]).slots[0], Some(Node(1, 0, 0, 0, []))]), Crowded([7]);
    assert Told(whole.slots);
    CrowdedTail([7]);
    assert SlotFits(whole.slots, 0) by { NothingLaid(); assert whole.slots[..0] == []; }
    forall x ensures Get(cut, x) == Lookup(ab, x) {
      LaidAnswers(whole, x);
    }
    assert Behind(ab, cut);
    assert NodeLess()(Node(1, 0, 0, 0, []), Node(1, 0, 0, 0, [5])) by {
      CutIsLess(Node(1, 0, 0, 0, [5]));
    }
    assert IsJoin(NodeLess(), cut, Octopus(1, [5]), Crowded([5]));
    assert Joint(ab, c, Crowded([5]));
    assert !Empty(ab) by {
      assert Lookup(ab, 0) == Get(cut, 0);
      if Empty(ab) {
        EmptyAnswersNothing(ab, 0);
      }
    }
  }

  lemma CrowdedOverflows()
    ensures !Standing(Laid(Crowded([7])))
  {
    hide LayTail, LayRecords;
    CrowdedTail([7]);
    StandingIffFits(Crowded([7]));
  }

  // ------------------------------------------------------------- the builder

  /** What a caller records of a commit. */
  datatype Commit = Commit(parents: seq<int>, rootTree: int, generation: U32)

  predicate FitsSlot(x: int)
  {
    0 <= x < NONE
  }

  /** The commit's own seq, its tree's and its parents' each have a slot value. */
  ghost predicate Writable(x: int, commit: Commit)
  {
    && FitsSlot(x) && FitsSlot(commit.rootTree)
    && forall k :: 0 <= k < |commit.parents| ==> FitsSlot(commit.parents[k])
  }

  /** A node's parents, its two own ones and the spilled ones after. */
  function ParentsOf(n: Node): seq<int>
  {
    (if n.parent1 == NONE then [] else if n.parent2 == NONE then [n.parent1] else [n.parent1, n.parent2]) + n.extra
  }

  /** The first two parents inline, the rest after them. */
  function NodeOf(commit: Commit): Node
  {
    Node(commit.generation, commit.rootTree,
         if |commit.parents| > 0 then commit.parents[0] else NONE,
         if |commit.parents| > 1 then commit.parents[1] else NONE,
         if |commit.parents| > 2 then commit.parents[2..] else [])
  }

  /** Any parent list, an octopus merge's included, reads back in order. */
  lemma ParentsReadBack(x: int, commit: Commit)
    requires Writable(x, commit)
    ensures ParentsOf(NodeOf(commit)) == commit.parents
  {
    var p := commit.parents;
    if |p| >= 2 {
      assert p == [p[0], p[1]] + p[2..];
    }
  }

  /** The array of exactly these commits. */
  ghost predicate Records(told: map<int, Commit>, s: Strided<Node>)
  {
    Canonical(s) && forall x :: Get(s, x) == if x in told then Some(NodeOf(told[x])) else None
  }

  /** The layout of exactly these commits, each writable. */
  ghost predicate Built(told: map<int, Commit>, index: CommitIndex)
  {
    (forall x :: x in told ==> Writable(x, told[x])) && exists s :: Records(told, s) && index == Laid(s)
  }

  /** The commits' extra parents fit one tail. */
  ghost predicate RoomFor(told: map<int, Commit>)
  {
    exists s :: Records(told, s) && Fits(s.slots)
  }

  /** The node gives a commit back: its parents in order, its tree and its generation. */
  ghost predicate Gives(n: Node, commit: Commit)
  {
    ParentsOf(n) == commit.parents && n.rootTree == commit.rootTree && n.generation == commit.generation
  }

  lemma RecordsAreTold(told: map<int, Commit>, s: Strided<Node>)
    requires Records(told, s) && forall x :: x in told ==> Writable(x, told[x])
    ensures Told(s.slots)
  {
    forall k | 0 <= k < |s.slots| && s.slots[k].Some? ensures s.slots[k].value.rootTree != NONE {
      var x := s.first + k;
      assert Get(s, x) == if x in told then Some(NodeOf(told[x])) else None;
      assert Writable(x, told[x]);
    }
  }

  /** An index built of commits whose tail fits answers with their nodes. */
  lemma BuiltAnswers(told: map<int, Commit>, index: CommitIndex, x: int)
    requires Built(told, index) && Standing(index)
    ensures Lookup(index, x) == if x in told then Some(NodeOf(told[x])) else None
  {
    hide Laid, Lookup, Fits, Told, Canonical;
    var s :| Records(told, s) && index == Laid(s);
    RecordsAreTold(told, s);
    StandingIffFits(s);
    LookupIsGet(index, s, x);
    assert Get(s, x) == if x in told then Some(NodeOf(told[x])) else None;
  }

  /** An index built of any commits, octopus merges included, can be read back
      exactly when their tail fits; then it gives each back, and nothing else. */
  lemma BuiltGivesBack(told: map<int, Commit>, index: CommitIndex, x: int)
    requires Built(told, index)
    ensures IsLayout(index) && (Standing(index) <==> RoomFor(told))
    ensures Standing(index) && x in told ==> Lookup(index, x).Some? && Gives(Lookup(index, x).value, told[x])
    ensures Standing(index) && x !in told ==> Lookup(index, x) == None
  {
    hide Laid, Lookup, Fits, Told, Canonical;
    var s :| Records(told, s) && index == Laid(s);
    RecordsAreTold(told, s);
    StandingIffFits(s);
    if RoomFor(told) {
      var t :| Records(told, t) && Fits(t.slots);
      RecordsAreOne(told, s, t);
    }
    if Standing(index) {
      BuiltAnswers(told, index, x);
      if x in told {
        assert Writable(x, told[x]);
        ParentsReadBack(x, told[x]);
      }
    }
  }

  lemma RecordsAreOne(told: map<int, Commit>, s: Strided<Node>, t: Strided<Node>)
    requires Records(told, s) && Records(told, t)
    ensures s == t
  {
    hide Canonical;
    forall x ensures Get(s, x) == Get(t, x) {
      assert Get(s, x) == if x in told then Some(NodeOf(told[x])) else None;
    }
    CanonicalIsUnique(s, t);
  }

  /** Collects commits, then lays them out. */
  class Builder {
    var commits: map<int, Node>
    /** What it was told, as it was told it. */
    ghost var told: map<int, Commit>

    /** Every commit told was writable, and is held as a node. */
    ghost predicate Valid()
      reads this
    {
      && commits.Keys == told.Keys
      && forall x :: x in told ==> Writable(x, told[x]) && x in commits && commits[x] == NodeOf(told[x])
    }

    constructor ()
      ensures Valid() && told == map[]
    {
      commits, told := map[], map[];
    }

    /** Records a commit, replacing what it held at that seq; refused exactly if a seq does not fit. */
    method Insert(x: int, commit: Commit) returns (ok: bool)
      requires Valid()
      modifies this
      ensures Valid()
      ensures ok <==> Writable(x, commit)
      ensures told == if ok then old(told)[x := commit] else old(told)
    {
      if !FitsSlot(commit.rootTree) || !FitsSlot(x) {
        return false;
      }
      var k := 0;
      while k < |commit.parents|
        invariant k <= |commit.parents| && forall i :: 0 <= i < k ==> FitsSlot(commit.parents[i])
        invariant commits == old(commits) && told == old(told)
      {
        if !FitsSlot(commit.parents[k]) {
          return false;
        }
        k := k + 1;
      }
      commits := commits[x := NodeOf(commit)];
      told := told[x := commit];
      ok := true;
    }

    /** Lays out what it was told over the range it spans. */
    method Build() returns (index: CommitIndex)
      requires Valid()
      ensures Built(told, index)
    {
      hide Laid, Writable, NodeOf;
      var laid := LaidOut(commits);
      assert Records(told, laid) by {
        forall x ensures Get(laid, x) == if x in told then Some(NodeOf(told[x])) else None {
          assert x in commits.Keys <==> x in told.Keys;
        }
      }
      index := Assemble(laid);
    }
  }
}
