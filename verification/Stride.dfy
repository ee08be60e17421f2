/** A slot per seq: a dense array that stands for a map, and its join. */
module Stride {
  import opened Bands
  import opened Objects
  import opened Frames

  /** An array over consecutive seqs starting at `first`, with gaps. */
  datatype Strided<N> = Strided(first: int, slots: seq<Option<N>>)

  /** What is at seq `x`: nothing for a hole, or outside the range. */
  function Get<N>(s: Strided<N>, x: int): Option<N>
  {
    if s.first <= x < s.first + |s.slots| then s.slots[x - s.first] else None
  }

  /** First and last slot hold nodes; the empty array starts at zero. */
  ghost predicate Canonical<N>(s: Strided<N>)
  {
    if s.slots == [] then s.first == 0
    else s.slots[0].Some? && s.slots[|s.slots| - 1].Some?
  }

  /** The same nodes have one layout. */
  lemma CanonicalIsUnique<N>(a: Strided<N>, b: Strided<N>)
    requires Canonical(a) && Canonical(b)
    requires forall x :: Get(a, x) == Get(b, x)
    ensures a == b
  {
    if a.slots == [] || b.slots == [] {
      assert Get(a, a.first) == Get(b, a.first) && Get(a, b.first) == Get(b, b.first);
    } else {
      assert Get(a, a.first) == Get(b, a.first);
      assert Get(a, b.first) == Get(b, b.first);
      var lastA, lastB := a.first + |a.slots| - 1, b.first + |b.slots| - 1;
      assert Get(a, lastA) == Get(b, lastA);
      assert Get(a, lastB) == Get(b, lastB);
      forall k | 0 <= k < |a.slots| ensures a.slots[k] == b.slots[k] {
        assert Get(a, a.first + k) == Get(b, a.first + k);
      }
    }
  }

  /** Drops leading and trailing gaps, changing no answer. */
  method Trimmed<N>(first: int, slots: seq<Option<N>>) returns (r: Strided<N>)
    ensures Canonical(r)
    ensures forall x :: Get(r, x) == Get(Strided(first, slots), x)
  {
    var lowest := 0;
    while lowest < |slots| && slots[lowest].None?
      invariant lowest <= |slots| && forall k :: 0 <= k < lowest ==> slots[k].None?
    {
      lowest := lowest + 1;
    }
    if lowest == |slots| {
      return Strided(0, []);
    }
    var upto := |slots|;
    while slots[upto - 1].None?
      invariant lowest < upto <= |slots| && forall k :: upto <= k < |slots| ==> slots[k].None?
      decreases upto
    {
      upto := upto - 1;
    }
    r := Strided(first + lowest, slots[lowest..upto]);
  }

  /** The canonical array that answers as the map does. */
  method LaidOut<N>(nodes: map<int, N>) returns (r: Strided<N>)
    ensures Canonical(r)
    ensures forall x :: Get(r, x) == if x in nodes then Some(nodes[x]) else None
  {
    if nodes.Keys == {} {
      return Strided(0, []);
    }
    var first := Least(nodes.Keys);
    var last := Greatest(nodes.Keys);
    var slots: seq<Option<N>> := seq(last - first + 1, _ => None);
    var left := nodes.Keys;
    while left != {}
      invariant left <= nodes.Keys && |slots| == last - first + 1
      invariant forall k :: 0 <= k < |slots| ==>
        slots[k] == if first + k in nodes && first + k !in left then Some(nodes[first + k]) else None
      decreases |left|
    {
      var x := Least(left);
      slots := slots[x - first := Some(nodes[x])];
      left := left - {x};
    }
    r := Trimmed(first, slots);
    forall x ensures Get(r, x) == if x in nodes then Some(nodes[x]) else None {
      assert Get(r, x) == Get(Strided(first, slots), x);
    }
  }

  /** `r` is `s` where the range covers it. */
  ghost predicate Restricts<N>(s: Strided<N>, lo: int, hi: int, r: Strided<N>)
  {
    Canonical(r) && forall x :: Get(r, x) == if lo <= x <= hi then Get(s, x) else None
  }

  /** The slots a range covers are the restriction to it. */
  lemma RestrictedSlice<N>(s: Strided<N>, lo: int, hi: int, from: nat, upto: nat, r: Strided<N>)
    requires SliceOf(s.first, |s.slots|, lo, hi) == Some((from, upto)) && upto <= |s.slots| && Canonical(r)
    requires forall x :: Get(r, x) == Get(Strided(s.first + from, s.slots[from..upto]), x)
    ensures Restricts(s, lo, hi, r)
  {
    forall x ensures Get(r, x) == if lo <= x <= hi then Get(s, x) else None {
      assert Get(r, x) == Get(Strided(s.first + from, s.slots[from..upto]), x);
    }
  }

  // ------------------------------------------------------------------- join

  /** A strict total order, by which the greater of two nodes is kept. */
  ghost predicate TotalOrder<N(!new)>(less: (N, N) -> bool)
  {
    && (forall a :: !less(a, a))
    && (forall a, b, c :: less(a, b) && less(b, c) ==> less(a, c))
    && (forall a, b :: a == b || less(a, b) || less(b, a))
  }

  /** The greater node, or whichever there is. */
  function Greater<N>(less: (N, N) -> bool, a: Option<N>, b: Option<N>): Option<N>
  {
    if a.None? then b
    else if b.None? then a
    else if less(a.value, b.value) then b else a
  }

  /** The join: on every seq, the greater node. */
  ghost predicate IsJoin<N>(less: (N, N) -> bool, a: Strided<N>, b: Strided<N>, r: Strided<N>)
  {
    Canonical(r) && forall x :: Get(r, x) == Greater(less, Get(a, x), Get(b, x))
  }

  /** Raises each slot to the maximum of what it held and what `source` holds there. */
  method Absorb<N>(less: (N, N) -> bool, source: Strided<N>, first: int, slots: seq<Option<N>>)
    returns (after: seq<Option<N>>)
    requires source.slots != [] ==> first <= source.first && source.first + |source.slots| <= first + |slots|
    ensures |after| == |slots|
    ensures forall k :: 0 <= k < |slots| ==> after[k] == Greater(less, slots[k], Get(source, first + k))
  {
    after := slots;
    var at := 0;
    while at < |source.slots|
      invariant at <= |source.slots| && |after| == |slots|
      invariant forall k :: 0 <= k < |slots| ==>
        after[k] == if first + k < source.first + at then Greater(less, slots[k], Get(source, first + k)) else slots[k]
    {
      if source.slots[at].Some? {
        var k := source.first + at - first;
        if after[k].None? || less(after[k].value, source.slots[at].value) {
          after := after[k := source.slots[at]];
        }
      }
      at := at + 1;
    }
  }

  /** The pointwise maximum of two arrays, a gap being least. */
  method Joined<N>(less: (N, N) -> bool, a: Strided<N>, b: Strided<N>) returns (r: Strided<N>)
    requires Canonical(a) && Canonical(b)
    ensures IsJoin(less, a, b, r)
  {
    if b.slots == [] {
      return a;
    }
    if a.slots == [] {
      return b;
    }
    var first := if a.first < b.first then a.first else b.first;
    var upto := if a.first + |a.slots| > b.first + |b.slots| then a.first + |a.slots| else b.first + |b.slots|;
    var none: seq<Option<N>> := seq(upto - first, _ => None);
    var mine := Absorb(less, a, first, none);
    var both := Absorb(less, b, first, mine);
    r := Trimmed(first, both);
    forall x ensures Get(r, x) == Greater(less, Get(a, x), Get(b, x)) {
      assert Get(r, x) == Get(Strided(first, both), x);
      if first <= x < upto {
        assert both[x - first] == Greater(less, mine[x - first], Get(b, x));
      }
    }
  }

  /** Which side is told first does not matter. */
  lemma JoinCommutes<N(!new)>(less: (N, N) -> bool, a: Strided<N>, b: Strided<N>, r: Strided<N>, s: Strided<N>)
    requires TotalOrder(less) && IsJoin(less, a, b, r) && IsJoin(less, b, a, s)
    ensures r == s
  {
    forall x ensures Get(r, x) == Get(s, x) {
      GreaterCommutes(less, Get(a, x), Get(b, x));
    }
    CanonicalIsUnique(r, s);
  }

  lemma GreaterCommutes<N(!new)>(less: (N, N) -> bool, a: Option<N>, b: Option<N>)
    requires TotalOrder(less)
    ensures Greater(less, a, b) == Greater(less, b, a)
  {
  }

  lemma GreaterAssociates<N(!new)>(less: (N, N) -> bool, a: Option<N>, b: Option<N>, c: Option<N>)
    requires TotalOrder(less)
    ensures Greater(less, Greater(less, a, b), c) == Greater(less, a, Greater(less, b, c))
  {
  }

  /** Nor does which pair is joined first. */
  lemma JoinAssociates<N(!new)>(less: (N, N) -> bool, a: Strided<N>, b: Strided<N>, c: Strided<N>,
                                ab: Strided<N>, bc: Strided<N>, r: Strided<N>, s: Strided<N>)
    requires TotalOrder(less)
    requires IsJoin(less, a, b, ab) && IsJoin(less, b, c, bc) && IsJoin(less, ab, c, r) && IsJoin(less, a, bc, s)
    ensures r == s
  {
    forall x ensures Get(r, x) == Get(s, x) {
      assert Get(ab, x) == Greater(less, Get(a, x), Get(b, x));
      assert Get(bc, x) == Greater(less, Get(b, x), Get(c, x));
      GreaterAssociates(less, Get(a, x), Get(b, x), Get(c, x));
    }
    CanonicalIsUnique(r, s);
  }

  /** Joining what is already there changes nothing. */
  lemma JoinAbsorbs<N(!new)>(less: (N, N) -> bool, a: Strided<N>, b: Strided<N>, ab: Strided<N>, r: Strided<N>)
    requires TotalOrder(less) && Canonical(ab)
    requires IsJoin(less, a, b, ab) && IsJoin(less, ab, b, r)
    ensures r == ab
  {
    forall x ensures Get(r, x) == Get(ab, x) {
      assert Get(ab, x) == Greater(less, Get(a, x), Get(b, x));
      GreaterAssociates(less, Get(a, x), Get(b, x), Get(b, x));
    }
    CanonicalIsUnique(r, ab);
  }

  lemma JoinIsIdempotent<N(!new)>(less: (N, N) -> bool, a: Strided<N>, r: Strided<N>)
    requires TotalOrder(less) && Canonical(a) && IsJoin(less, a, a, r)
    ensures r == a
  {
    CanonicalIsUnique(r, a);
  }
}
