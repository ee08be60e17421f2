/** Proofs that one commit descends from another, for a whole push at once: one
    pass over a topological order, keeping a set of ancestors per commit and
    throwing sets away when there are too many.

    Throwing a set away costs proofs; it makes none wrong.
*/
module AncestryProof {
  import opened Graphs
  import opened Bands
  import opened Objects
  import opened TopoOrder

  /** The sets kept hold no more members than this in all. */
  const MAX_LIVE_ANCESTOR_BITS: nat := 16 * 1024 * 1024

  /** `a` is `c` or an ancestor of it by the push's own commits. */
  ghost predicate Within(batch: Batch, c: Oid, a: Oid)
  {
    Reaches(ParentIn(batch), {c}, a)
  }

  /** `a` is a proper ancestor of `c` by the push's own commits. */
  ghost predicate Above(batch: Batch, c: Oid, a: Oid)
  {
    exists p :: ParentIn(batch)(c, p) && Within(batch, p, a)
  }

  /** `c`, or an ancestor of it in the push, names the unsent parent `q`. */
  ghost predicate Touches(batch: Batch, c: Oid, q: Oid)
  {
    q !in batch && exists x :: Within(batch, c, x) && x in batch && q in batch[x]
  }

  lemma WithinSelf(batch: Batch, c: Oid)
    ensures Within(batch, c, c)
  {
    ReachSeed(ParentIn(batch), {c}, c);
  }

  lemma WithinUp(batch: Batch, c: Oid, p: Oid, a: Oid)
    requires ParentIn(batch)(c, p) && Within(batch, p, a)
    ensures Within(batch, c, a)
  {
    var edge := ParentIn(batch);
    ReachSeed(edge, {c}, c);
    ReachStep(edge, {c}, c, p);
    var mid := {p};
    assert forall m :: m in mid ==> Reaches(edge, {c}, m);
    ReachTrans(edge, {c}, mid, a);
  }

  /** Being within is being it, or being above it. */
  lemma WithinSplit(batch: Batch, c: Oid, a: Oid)
    requires Within(batch, c, a)
    ensures a == c || Above(batch, c, a)
  {
    var edge := ParentIn(batch);
    var p :| Leads(edge, {c}, p, a);
    if |p| > 1 {
      assert edge(p[0], p[0 + 1]);
      assert Leads(edge, {p[1]}, p[1..], a) by {
        forall i | 0 <= i < |p[1..]| - 1 ensures edge(p[1..][i], p[1..][i + 1]) {
          assert edge(p[i + 1], p[i + 1 + 1]);
        }
      }
      assert Within(batch, p[1], a);
    }
  }

  lemma AboveUp(batch: Batch, c: Oid, p: Oid, a: Oid)
    requires ParentIn(batch)(c, p) && (a == p || Above(batch, p, a))
    ensures Above(batch, c, a)
  {
    if a == p {
      WithinSelf(batch, p);
    } else {
      var q :| ParentIn(batch)(p, q) && Within(batch, q, a);
      WithinUp(batch, p, q, a);
    }
  }

  lemma TouchesUp(batch: Batch, c: Oid, p: Oid, q: Oid)
    requires ParentIn(batch)(c, p) && Touches(batch, p, q)
    ensures Touches(batch, c, q)
  {
    hide Reaches;
    var x :| Within(batch, p, x) && x in batch && q in batch[x];
    WithinUp(batch, c, p, x);
  }

  /** What a commit touches, it names itself or a parent of it touches. */
  lemma TouchesSplit(batch: Batch, c: Oid, q: Oid)
    requires Touches(batch, c, q) && c in batch
    ensures q in batch[c] || exists p :: ParentIn(batch)(c, p) && Touches(batch, p, q)
  {
    hide Reaches;
    var x :| Within(batch, c, x) && x in batch && q in batch[x];
    if x != c {
      WithinSplit(batch, c, x);
      var p :| ParentIn(batch)(c, p) && Within(batch, p, x);
      assert Touches(batch, p, q);
    }
  }

  // ------------------------------------------------------------- closures

  ghost function Tagged(k: nat, bits: set<nat>): set<(nat, nat)>
  {
    set b | b in bits :: (k, b)
  }

  /** Every bit every live closure holds, each tagged with its closure. */
  ghost function Bits(live: map<nat, set<nat>>): set<(nat, nat)>
  {
    set k, b | k in live && b in live[k] :: (k, b)
  }

  lemma {:induction false} TaggedSize(k: nat, bits: set<nat>)
    ensures |Tagged(k, bits)| == |bits|
    decreases bits
  {
    if bits == {} {
      assert Tagged(k, bits) == {};
    } else {
      var b: nat := PickGhost(bits);
      TaggedSize(k, bits - {b});
      assert Tagged(k, bits) == Tagged(k, bits - {b}) + {(k, b)};
      assert (k, b) !in Tagged(k, bits - {b});
    }
  }

  lemma BitsGrow(live: map<nat, set<nat>>, k: nat, bits: set<nat>)
    requires k !in live
    ensures |Bits(live[k := bits])| == |Bits(live)| + |bits|
  {
    TaggedSize(k, bits);
    assert Bits(live[k := bits]) == Bits(live) + Tagged(k, bits);
    assert Bits(live) !! Tagged(k, bits);
  }

  lemma BitsDrop(live: map<nat, set<nat>>, k: nat)
    requires k in live
    ensures |Bits(live)| == |Bits(live - {k})| + |live[k]|
  {
    BitsGrow(live - {k}, k, live[k]);
    assert (live - {k})[k := live[k]] == live;
  }

  /** Part of `whole`: fewer closures, each unchanged. */
  ghost predicate PartOf(live: map<nat, set<nat>>, whole: map<nat, set<nat>>)
  {
    forall k :: k in live ==> k in whole && live[k] == whole[k]
  }

  ghost function Front(order: seq<nat>, n: nat): set<nat>
    requires n <= |order|
  {
    set k | 0 <= k < n :: order[k]
  }

  /** The first `n` of the order are dropped, no more than the cap asks for. */
  ghost predicate Evicted(whole: map<nat, set<nat>>, order: seq<nat>, cap: nat, n: nat,
                          live: map<nat, set<nat>>, oldest: seq<nat>)
  {
    && n <= |order| && oldest == order[n..]
    && live == whole - Front(order, n)
    && (n > 0 ==> |Bits(whole - Front(order, n - 1))| > cap)
  }

  /** What went is the oldest, and only while over the cap. */
  ghost predicate OldestGone(whole: map<nat, set<nat>>, order: seq<nat>, cap: nat,
                             live: map<nat, set<nat>>, oldest: seq<nat>)
  {
    exists n :: Evicted(whole, order, cap, n, live, oldest)
  }

  lemma NoBits(live: map<nat, set<nat>>)
    requires live.Keys == {}
    ensures |Bits(live)| == 0
  {
    assert Bits(live) == {};
  }

  lemma NoneEvicted(whole: map<nat, set<nat>>, order: seq<nat>, cap: nat)
    ensures Evicted(whole, order, cap, 0, whole, order)
  {
    assert whole - Front(order, 0) == whole;
  }

  lemma EvictNext(whole: map<nat, set<nat>>, order: seq<nat>, cap: nat, n: nat,
                  live: map<nat, set<nat>>, oldest: seq<nat>)
    requires Evicted(whole, order, cap, n, live, oldest) && oldest != [] && |Bits(live)| > cap
    ensures Evicted(whole, order, cap, n + 1, live - {oldest[0]}, oldest[1..])
  {
    hide Bits;
    assert Front(order, n + 1) == Front(order, n) + {order[n]};
    assert live - {order[n]} == whole - Front(order, n + 1);
  }

  /** The sets still kept, each under the slot of its commit, with their members counted. */
  class Closures {
    var live: map<nat, set<nat>>
    var resident: nat
    var oldest: seq<nat>

    /** `resident` is the summed size of the live closures, all of which can be evicted. */
    ghost predicate Valid()
      reads this
    {
      resident == |Bits(live)| && forall k :: k in live ==> k in oldest
    }

    constructor ()
      ensures Valid() && live == map[] && resident == 0
    {
      live, resident, oldest := map[], 0, [];
      new;
      assert Bits(live) == {};
    }

    method DropOne(at: nat)
      requires resident == |Bits(live)|
      modifies this
      ensures live == old(live) - {at} && oldest == old(oldest)
      ensures resident == |Bits(live)| && resident <= old(resident)
    {
      if at in live {
        BitsDrop(live, at);
        resident := resident - |live[at]|;
        live := live - {at};
      } else {
        assert live - {at} == live;
      }
    }

    /** Holds one more closure, dropping the oldest while over the cap. */
    method Keep(at: nat, closure: set<nat>, cap: nat)
      requires Valid() && at !in live
      modifies this
      ensures Valid() && resident <= cap
      ensures PartOf(live, old(live)[at := closure])
      ensures |Bits(old(live)[at := closure])| <= cap ==> live == old(live)[at := closure]
      ensures OldestGone(old(live)[at := closure], old(oldest) + [at], cap, live, oldest)
    {
      hide Evicted, Bits;
      BitsGrow(live, at, closure);
      ghost var whole := live[at := closure];
      ghost var order := oldest + [at];
      ghost var n := 0;
      NoneEvicted(whole, order, cap);
      resident := resident + |closure|;
      live := live[at := closure];
      oldest := oldest + [at];
      while resident > cap && oldest != []
        invariant Valid() && PartOf(live, whole)
        invariant |Bits(whole)| <= cap ==> live == whole
        invariant Evicted(whole, order, cap, n, live, oldest)
        decreases |oldest|
      {
        var evict := oldest[0];
        EvictNext(whole, order, cap, n, live, oldest);
        oldest := oldest[1..];
        DropOne(evict);
        n := n + 1;
      }
      if oldest == [] {
        NoBits(live);
      }
    }

    /** Counts down a commit's unbuilt children, and at zero forgets its set and no other. */
    method Retire(at: nat, left: seq<nat>) returns (after: seq<nat>)
      requires Valid()
      modifies this
      ensures Valid() && resident <= old(resident)
      ensures at >= |left| ==> after == left && live == old(live)
      ensures at < |left| ==> after == left[at := if left[at] > 0 then left[at] - 1 else 0]
      ensures at < |left| ==> live == if after[at] == 0 then old(live) - {at} else old(live)
    {
      after := left;
      if at < |left| {
        after := left[at := if left[at] > 0 then left[at] - 1 else 0];
        if after[at] == 0 {
          DropOne(at);
        }
      }
    }
  }

  // -------------------------------------------------------- what a bit says

  /** Bits below the push's size are its commits; those above, its boundaries. */
  ghost predicate Says(batch: Batch, order: seq<Oid>, oids: seq<Oid>, c: Oid, bit: nat)
  {
    if bit < |order| then Above(batch, c, order[bit])
    else bit - |order| < |oids| && Touches(batch, c, oids[bit - |order|])
  }

  ghost predicate SoundBits(batch: Batch, order: seq<Oid>, oids: seq<Oid>, c: Oid, bits: set<nat>)
  {
    forall bit :: bit in bits ==> Says(batch, order, oids, c, bit)
  }

  ghost predicate FullBits(batch: Batch, order: seq<Oid>, oids: seq<Oid>, c: Oid, bits: set<nat>)
  {
    forall bit: nat :: Says(batch, order, oids, c, bit) ==> bit in bits
  }

  /** Each commit's place in the order. */
  ghost predicate Places(order: seq<Oid>, index: map<Oid, nat>)
  {
    && index.Keys == AsSet(order)
    && forall c :: c in index ==> index[c] < |order| && order[index[c]] == c
  }

  /** What one parent adds to its child's closure. */
  ghost predicate Adds(index: map<Oid, nat>, live: map<nat, set<nat>>, oids: seq<Oid>, n: nat, p: Oid, bit: nat)
  {
    if p in index then bit == index[p] || (index[p] in live && bit in live[index[p]])
    else n <= bit < n + |oids| && oids[bit - n] == p
  }

  ghost predicate Folds(index: map<Oid, nat>, live: map<nat, set<nat>>, oids: seq<Oid>, n: nat,
                        parents: seq<Oid>, closure: set<nat>)
  {
    forall bit: nat :: bit in closure <==> exists p :: p in parents && Adds(index, live, oids, n, p, bit)
  }

  ghost predicate LiveSound(batch: Batch, order: seq<Oid>, oids: seq<Oid>, live: map<nat, set<nat>>)
  {
    forall k :: k in live ==> k < |order| && SoundBits(batch, order, oids, order[k], live[k])
  }

  /** Every bit a child folds in is true of it. */
  lemma FoldsSound(batch: Batch, order: seq<Oid>, oids: seq<Oid>, index: map<Oid, nat>,
                   live: map<nat, set<nat>>, c: Oid, closure: set<nat>)
    requires AsSet(order) == batch.Keys && Places(order, index) && c in batch
    requires LiveSound(batch, order, oids, live)
    requires Folds(index, live, oids, |order|, batch[c], closure)
    ensures SoundBits(batch, order, oids, c, closure)
  {
    hide Reaches, Above, Touches;
    forall bit | bit in closure ensures Says(batch, order, oids, c, bit) {
      var p :| p in batch[c] && Adds(index, live, oids, |order|, p, bit);
      if p in index {
        assert ParentIn(batch)(c, p);
        if bit == index[p] {
          AboveUp(batch, c, p, p);
        } else {
          SaysUp(batch, order, oids, c, p, bit);
        }
      } else {
        TouchesOwn(batch, c, p);
      }
    }
  }

  lemma TouchesOwn(batch: Batch, c: Oid, q: Oid)
    requires c in batch && q in batch[c] && q !in batch
    ensures Touches(batch, c, q)
  {
    WithinSelf(batch, c);
  }

  lemma SaysUp(batch: Batch, order: seq<Oid>, oids: seq<Oid>, c: Oid, p: Oid, bit: nat)
    requires ParentIn(batch)(c, p) && Says(batch, order, oids, p, bit)
    ensures Says(batch, order, oids, c, bit)
  {
    hide Reaches, Above, Touches;
    if bit < |order| {
      AboveUp(batch, c, p, order[bit]);
    } else {
      TouchesUp(batch, c, p, oids[bit - |order|]);
    }
  }

  /** Every in-push parent's closure is still live, and misses nothing. */
  ghost predicate LiveFull(batch: Batch, order: seq<Oid>, oids: seq<Oid>, index: map<Oid, nat>,
                           live: map<nat, set<nat>>, c: Oid)
    requires Places(order, index) && c in batch
  {
    forall p :: p in batch[c] && p in index
      ==> index[p] in live && FullBits(batch, order, oids, p, live[index[p]])
  }

  /** Nothing true of a child is missed while all its parents are live. */
  lemma FoldsFull(batch: Batch, order: seq<Oid>, oids: seq<Oid>, index: map<Oid, nat>,
                  live: map<nat, set<nat>>, c: Oid, closure: set<nat>)
    requires Distinct(order) && AsSet(order) == batch.Keys && Places(order, index) && c in batch
    requires LiveFull(batch, order, oids, index, live, c)
    requires Folds(index, live, oids, |order|, batch[c], closure)
    ensures FullBits(batch, order, oids, c, closure)
  {
    hide Reaches, Above, Touches;
    forall bit: nat | Says(batch, order, oids, c, bit) ensures bit in closure {
      var p := SaysSplit(batch, order, oids, index, c, bit);
      assert Adds(index, live, oids, |order|, p, bit);
    }
  }

  /** What holds of a commit it names itself, or holds of a parent. */
  lemma SaysSplit(batch: Batch, order: seq<Oid>, oids: seq<Oid>, index: map<Oid, nat>, c: Oid, bit: nat)
    returns (p: Oid)
    requires Distinct(order) && AsSet(order) == batch.Keys && Places(order, index) && c in batch
    requires Says(batch, order, oids, c, bit)
    ensures p in batch[c]
    ensures p in index ==> bit == index[p] || Says(batch, order, oids, p, bit)
    ensures p !in index ==> |order| <= bit && oids[bit - |order|] == p
  {
    hide Reaches;
    if bit < |order| {
      p :| ParentIn(batch)(c, p) && Within(batch, p, order[bit]);
      WithinSplit(batch, p, order[bit]);
      assert p in AsSet(order);
      if order[bit] == p && index[p] != bit {
        assert false;
      }
    } else {
      var q := oids[bit - |order|];
      TouchesSplit(batch, c, q);
      if q in batch[c] {
        p := q;
      } else {
        p :| ParentIn(batch)(c, p) && Touches(batch, p, q);
      }
    }
  }

  // -------------------------------------------------------------- the push

  /** A push's commits, ordered parents first. */
  datatype Push = Push(order: seq<Oid>, batch: Batch, index: map<Oid, nat>) {
    ghost predicate Valid()
    {
      IsTopo(batch, order) && Places(order, index)
    }
  }

  /** Orders a push, which works exactly when its commits form no cycle. */
  method NewPush(batch: Batch) returns (r: Option<Push>)
    ensures r.Some? <==> Acyclic(ParentIn(batch))
    ensures r.Some? ==> r.value.Valid() && r.value.batch == batch
  {
    hide Acyclic, KahnFrom, Sorted, ParentsFirst, Places;
    var topo := Order(batch);
    if topo.CycleDetected? {
      return None;
    }
    var index := IndexOf(topo.order);
    r := Some(Push(topo.order, batch, index));
  }

  method IndexOf(order: seq<Oid>) returns (index: map<Oid, nat>)
    ensures Places(order, index)
  {
    index := map[];
    var at := 0;
    while at < |order|
      invariant at <= |order|
      invariant index.Keys == AsSet(order[..at])
      invariant forall c :: c in index ==> index[c] < |order| && order[index[c]] == c
    {
      AsSetAppend(order[..at], order[at]);
      assert order[..at + 1] == order[..at] + [order[at]];
      index := index[order[at] := at];
      at := at + 1;
    }
    assert order[..at] == order;
  }

  function ParentsOf(batch: Batch, c: Oid): seq<Oid>
  {
    if c in batch then batch[c] else []
  }

  ghost predicate Named(batch: Batch, q: Oid)
  {
    q !in batch && exists c :: c in batch && q in batch[c]
  }

  /** Every unsent parent among `parents` is listed, unless the list is full. */
  ghost predicate Listed(batch: Batch, parents: seq<Oid>, max: nat, out: seq<Oid>)
  {
    |out| < max ==> forall q :: q in parents && q !in batch ==> q in out
  }

  /** Parents outside the push, distinct, cut off at `max`. */
  method UnsentParents(push: Push, max: nat) returns (out: seq<Oid>)
    requires push.Valid()
    ensures Distinct(out) && |out| <= max
    ensures forall q :: q in out ==> Named(push.batch, q)
    ensures |out| < max ==> forall q :: Named(push.batch, q) ==> q in out
  {
    hide Distinct, Named, ParentsFirst, Places;
    out := [];
    var i := 0;
    assert Distinct(out) by { NothingRepeats(); }
    while i < |push.order|
      invariant i <= |push.order|
      invariant Distinct(out) && |out| <= max
      invariant forall q :: q in out ==> Named(push.batch, q)
      invariant forall k :: 0 <= k < i ==> Listed(push.batch, ParentsOf(push.batch, push.order[k]), max, out)
    {
      ghost var was := out;
      assert push.order[i] in AsSet(push.order);
      out := ListUnsent(push.batch, push.order[i], max, out);
      i := i + 1;
    }
    if |out| < max {
      forall q | Named(push.batch, q) ensures q in out {
        var c := NamedBy(push.batch, q);
        assert c in AsSet(push.order);
        var k :| 0 <= k < |push.order| && push.order[k] == c;
        assert Listed(push.batch, ParentsOf(push.batch, push.order[k]), max, out);
      }
    }
  }

  lemma NothingRepeats()
    ensures Distinct([])
  {
  }

  lemma NamedBy(batch: Batch, q: Oid) returns (c: Oid)
    requires Named(batch, q)
    ensures q !in batch && c in batch && q in batch[c]
  {
    c :| c in batch && q in batch[c];
  }

  method ListUnsent(batch: Batch, c: Oid, max: nat, listed: seq<Oid>) returns (out: seq<Oid>)
    requires c in batch && Distinct(listed) && |listed| <= max
    requires forall q :: q in listed ==> Named(batch, q)
    ensures listed <= out && Distinct(out) && |out| <= max
    ensures forall q :: q in out ==> Named(batch, q)
    ensures Listed(batch, batch[c], max, out)
  {
    out := listed;
    var parents := batch[c];
    var j := 0;
    while j < |parents| && |out| < max
      invariant j <= |parents| && listed <= out && Distinct(out) && |out| <= max
      invariant forall q :: q in out ==> Named(batch, q)
      invariant forall k :: 0 <= k < j && parents[k] !in batch ==> parents[k] in out
    {
      if parents[j] !in batch && parents[j] !in out {
        assert Named(batch, parents[j]);
        out := out + [parents[j]];
      }
      j := j + 1;
    }
  }

  /** How many parent edges into `c` come from `order[i..]`, with repeats. */
  ghost function Left(batch: Batch, order: seq<Oid>, i: nat, c: Oid): nat
    decreases |order| - i
  {
    if i >= |order| then 0 else Occurs(ParentsOf(batch, order[i]), c) + Left(batch, order, i + 1, c)
  }

  /** The children each commit still has ahead of it, by slot. */
  ghost predicate Counts(batch: Batch, order: seq<Oid>, i: nat, left: seq<nat>)
  {
    |left| == |order| && forall k :: 0 <= k < |order| ==> left[k] == Left(batch, order, i, order[k])
  }

  /** Per slot, the number of parent mentions that point at it. */
  method ChildrenLeft(push: Push) returns (left: seq<nat>)
    requires push.Valid()
    ensures Counts(push.batch, push.order, 0, left)
  {
    hide ParentsFirst, Places, Occurs;
    left := seq(|push.order|, _ => 0);
    var i := 0;
    while i < |push.order|
      invariant i <= |push.order| && |left| == |push.order|
      invariant forall k :: 0 <= k < |left| ==>
        left[k] + Left(push.batch, push.order, i, push.order[k]) == Left(push.batch, push.order, 0, push.order[k])
    {
      assert push.order[i] in AsSet(push.order);
      left := CountParents(push, push.batch[push.order[i]], left);
      i := i + 1;
    }
  }

  /** Adds one to a commit's slot for every time it is named. */
  method CountParents(push: Push, parents: seq<Oid>, left: seq<nat>) returns (after: seq<nat>)
    requires push.Valid() && |left| == |push.order|
    ensures |after| == |left|
    ensures forall k :: 0 <= k < |left| ==> after[k] == left[k] + Occurs(parents, push.order[k])
  {
    after := left;
    var j := 0;
    while j < |parents|
      invariant j <= |parents| && |after| == |left|
      invariant forall k :: 0 <= k < |left| ==> after[k] == left[k] + Occurs(parents[..j], push.order[k])
    {
      forall x { OccursAppend(parents[..j], parents[j], x); }
      assert parents[..j + 1] == parents[..j] + [parents[j]];
      if parents[j] in push.index {
        var at := push.index[parents[j]];
        assert forall k :: 0 <= k < |left| && k != at ==> push.order[k] != parents[j];
        after := after[at := after[at] + 1];
      } else {
        assert forall k :: 0 <= k < |left| ==> push.order[k] in AsSet(push.order);
      }
      j := j + 1;
    }
    assert parents[..j] == parents;
  }

  /** The set of one commit: every sent parent with the set it still has, and the bit
      of every unsent parent that has one. */
  method ClosureOf(push: Push, parents: seq<Oid>, closures: Closures, oids: seq<Oid>) returns (closure: set<nat>)
    requires push.Valid() && Distinct(oids)
    ensures Folds(push.index, closures.live, oids, |push.order|, parents, closure)
  {
    closure := {};
    var j := 0;
    while j < |parents|
      invariant j <= |parents|
      invariant forall bit: nat :: bit in closure <==>
        exists p :: p in parents[..j] && Adds(push.index, closures.live, oids, |push.order|, p, bit)
    {
      assert parents[..j + 1] == parents[..j] + [parents[j]];
      ghost var was := closure;
      var bits := Inherited(push, parents[j], closures, oids);
      closure := closure + bits;
      forall bit: nat | bit in closure
        ensures exists p :: p in parents[..j + 1] && Adds(push.index, closures.live, oids, |push.order|, p, bit)
      {
        if bit in was {
          var p :| p in parents[..j] && Adds(push.index, closures.live, oids, |push.order|, p, bit);
          assert p in parents[..j + 1];
        } else {
          assert Adds(push.index, closures.live, oids, |push.order|, parents[j], bit);
        }
      }
      j := j + 1;
    }
    assert parents[..j] == parents;
  }

  /** One parent's part: its own closure and itself, or its boundary bit. */
  method Inherited(push: Push, p: Oid, closures: Closures, oids: seq<Oid>) returns (bits: set<nat>)
    requires push.Valid() && Distinct(oids)
    ensures forall bit: nat :: bit in bits <==> Adds(push.index, closures.live, oids, |push.order|, p, bit)
  {
    if p in push.index {
      var at := push.index[p];
      bits := {at} + if at in closures.live then closures.live[at] else {};
    } else {
      bits := {};
      var b := 0;
      while b < |oids| && oids[b] != p
        invariant b <= |oids| && forall a :: 0 <= a < b ==> oids[a] != p
      {
        b := b + 1;
      }
      if b < |oids| {
        bits := {|push.order| + b};
        assert forall a :: 0 <= a < |oids| && oids[a] == p ==> a == b;
      } else {
        assert forall a :: 0 <= a < |oids| ==> oids[a] != p;
      }
      forall bit: nat | Adds(push.index, closures.live, oids, |push.order|, p, bit) ensures bit in bits {
        assert oids[bit - |push.order|] == p;
      }
    }
  }

  /** The target's ancestry settles that it can read `home`'s pack. */
  ghost predicate Settled(batch: Batch, oids: seq<Oid>, reachable: seq<set<Oid>>, target: Oid, home: Oid)
    requires |oids| == |reachable|
  {
    if home in batch then Above(batch, target, home)
    else exists b :: 0 <= b < |oids| && home in reachable[b] && Touches(batch, target, oids[b])
  }

  /** Whether a closure answers for `home`. */
  method Holds(push: Push, closure: set<nat>, reachable: seq<set<Oid>>, home: Oid) returns (yes: bool)
    requires push.Valid()
    ensures home in push.index ==> (yes <==> push.index[home] in closure)
    ensures home !in push.index ==>
      (yes <==> exists b :: 0 <= b < |reachable| && home in reachable[b] && |push.order| + b in closure)
  {
    if home in push.index {
      return push.index[home] in closure;
    }
    var b := 0;
    while b < |reachable|
      invariant b <= |reachable|
      invariant forall a :: 0 <= a < b ==> !(home in reachable[a] && |push.order| + a in closure)
    {
      if |push.order| + b in closure && home in reachable[b] {
        return true;
      }
      b := b + 1;
    }
    yes := false;
  }

  /** A sound closure's yes is settled, and a full one's no is not. */
  lemma HoldsIsSettled(push: Push, oids: seq<Oid>, reachable: seq<set<Oid>>, c: Oid, closure: set<nat>, home: Oid,
                       yes: bool)
    requires push.Valid() && |oids| == |reachable|
    requires home in push.index ==> (yes <==> push.index[home] in closure)
    requires home !in push.index ==>
      (yes <==> exists b :: 0 <= b < |reachable| && home in reachable[b] && |push.order| + b in closure)
    ensures SoundBits(push.batch, push.order, oids, c, closure) && yes ==> Settled(push.batch, oids, reachable, c, home)
    ensures FullBits(push.batch, push.order, oids, c, closure) && !yes ==>
      !Settled(push.batch, oids, reachable, c, home)
  {
    hide Reaches, Above, Touches, ParentsFirst;
    var n := |push.order|;
    if home in push.index {
      assert Says(push.batch, push.order, oids, c, push.index[home]) <==> Above(push.batch, c, home);
    } else {
      forall b | 0 <= b < |oids|
        ensures Says(push.batch, push.order, oids, c, n + b) <==> Touches(push.batch, c, oids[b])
      {
      }
      if FullBits(push.batch, push.order, oids, c, closure) && Settled(push.batch, oids, reachable, c, home) {
        var b :| 0 <= b < |oids| && home in reachable[b] && Touches(push.batch, c, oids[b]);
        assert Says(push.batch, push.order, oids, c, n + b);
      }
      if yes && SoundBits(push.batch, push.order, oids, c, closure) {
        var b :| 0 <= b < |reachable| && home in reachable[b] && n + b in closure;
        assert Says(push.batch, push.order, oids, c, n + b);
      }
    }
  }

  // ----------------------------------------------------------------- prove

  /** Whether `target`'s pack may lean on `home`'s. */
  datatype Query = Query(target: Oid, home: Oid)

  ghost predicate Groups(queries: seq<Query>, asked: map<Oid, seq<Oid>>)
  {
    forall t, h :: Query(t, h) in queries <==> h in ParentsOf(asked, t)
  }

  /** The homes asked about, by target. */
  method Asked(queries: seq<Query>) returns (asked: map<Oid, seq<Oid>>)
    ensures Groups(queries, asked)
  {
    asked := map[];
    var i := 0;
    while i < |queries|
      invariant i <= |queries| && Groups(queries[..i], asked)
    {
      assert queries[..i + 1] == queries[..i] + [queries[i]];
      var q := queries[i];
      ghost var was := asked;
      asked := asked[q.target := (if q.target in asked then asked[q.target] else []) + [q.home]];
      assert forall t, h :: h in ParentsOf(asked, t) <==> h in ParentsOf(was, t) || Query(t, h) == q;
      i := i + 1;
    }
    assert queries[..i] == queries;
  }

  /** The homes among `homes` a commit's closure answers for. */
  method Answer(push: Push, oids: seq<Oid>, reachable: seq<set<Oid>>, c: Oid, closure: set<nat>, homes: seq<Oid>)
    returns (held: set<(Oid, Oid)>)
    requires push.Valid() && |oids| == |reachable|
    requires SoundBits(push.batch, push.order, oids, c, closure)
    ensures forall t, h :: (t, h) in held ==> t == c && h in homes && Settled(push.batch, oids, reachable, t, h)
    ensures FullBits(push.batch, push.order, oids, c, closure) ==>
      forall h :: h in homes && Settled(push.batch, oids, reachable, c, h) ==> (c, h) in held
  {
    hide SoundBits, FullBits, Settled, IsTopo, Places;
    held := {};
    var j := 0;
    while j < |homes|
      invariant j <= |homes|
      invariant forall t, h :: (t, h) in held ==> t == c && h in homes && Settled(push.batch, oids, reachable, t, h)
      invariant FullBits(push.batch, push.order, oids, c, closure) ==>
        forall k :: 0 <= k < j && Settled(push.batch, oids, reachable, c, homes[k]) ==> (c, homes[k]) in held
    {
      var yes := Holds(push, closure, reachable, homes[j]);
      HoldsIsSettled(push, oids, reachable, c, closure, homes[j], yes);
      if yes {
        held := held + {(c, homes[j])};
      }
      j := j + 1;
    }
  }

  /** Each slot is down by how often its commit was named. */
  ghost predicate Fewer(order: seq<Oid>, left: seq<nat>, named: seq<Oid>, after: seq<nat>)
  {
    && |left| == |order| == |after|
    && forall k :: 0 <= k < |order| ==> after[k] + Occurs(named, order[k]) == left[k]
  }

  lemma FewerStep(push: Push, left: seq<nat>, parents: seq<Oid>, j: nat, was: seq<nat>, after: seq<nat>)
    requires push.Valid() && j < |parents| && Fewer(push.order, left, parents[..j], was)
    requires forall k :: 0 <= k < |left| ==> left[k] >= Occurs(parents, push.order[k])
    requires if parents[j] !in push.index then after == was else
               var at := push.index[parents[j]];
               after == was[at := if was[at] > 0 then was[at] - 1 else 0]
    ensures Fewer(push.order, left, parents[..j + 1], after)
  {
    hide Occurs, ParentsFirst;
    assert parents[..j + 1] == parents[..j] + [parents[j]];
    forall k | 0 <= k < |push.order| ensures after[k] + Occurs(parents[..j + 1], push.order[k]) == left[k] {
      OccursAppend(parents[..j], parents[j], push.order[k]);
      OccursPrefix(parents, j + 1, push.order[k]);
      assert push.order[k] in AsSet(push.order);
    }
  }

  /** Closures whose commits have children left survive. */
  ghost predicate Spares(was: map<nat, set<nat>>, live: map<nat, set<nat>>, left: seq<nat>)
  {
    PartOf(live, was) && forall k :: k in was && k < |left| && left[k] > 0 ==> k in live
  }

  /** Retires every in-push parent of a commit just built. */
  method RetireParents(push: Push, parents: seq<Oid>, closures: Closures, left: seq<nat>) returns (after: seq<nat>)
    requires push.Valid() && closures.Valid() && |left| == |push.order|
    requires forall k :: 0 <= k < |left| ==> left[k] >= Occurs(parents, push.order[k])
    modifies closures
    ensures closures.Valid() && closures.resident <= old(closures.resident)
    ensures |after| == |left| && Fewer(push.order, left, parents, after)
    ensures Spares(old(closures.live), closures.live, after)
  {
    hide Fewer, IsTopo, Bits;
    after := left;
    var j := 0;
    assert Fewer(push.order, left, parents[..0], after) by { FewerStart(push.order, left); }
    while j < |parents|
      invariant j <= |parents| && closures.Valid() && closures.resident <= old(closures.resident)
      invariant |after| == |push.order| && Fewer(push.order, left, parents[..j], after)
      invariant Spares(old(closures.live), closures.live, after)
    {
      ghost var was := after;
      if parents[j] in push.index {
        after := closures.Retire(push.index[parents[j]], after);
      }
      FewerStep(push, left, parents, j, was, after);
      j := j + 1;
    }
    assert parents[..j] == parents;
  }

  lemma FewerStart(order: seq<Oid>, left: seq<nat>)
    requires |left| == |order|
    ensures Fewer(order, left, [], left)
  {
  }

  /** Every built commit with children ahead still has its closure, whole. */
  ghost predicate NoneLost(batch: Batch, order: seq<Oid>, oids: seq<Oid>, i: nat, left: seq<nat>,
                           live: map<nat, set<nat>>)
    requires |left| == |order|
  {
    forall k :: 0 <= k < i && k < |order| && left[k] > 0 ==>
      k in live && FullBits(batch, order, oids, order[k], live[k])
  }

  /** So the next commit's parents are all live. */
  lemma ParentsAreLive(push: Push, oids: seq<Oid>, i: nat, left: seq<nat>, live: map<nat, set<nat>>)
    requires push.Valid() && i < |push.order| && push.order[i] in push.batch
    requires Counts(push.batch, push.order, i, left)
    requires NoneLost(push.batch, push.order, oids, i, left, live)
    ensures LiveFull(push.batch, push.order, oids, push.index, live, push.order[i])
  {
    hide FullBits;
    var c := push.order[i];
    forall p | p in push.batch[c] && p in push.index
      ensures push.index[p] in live && FullBits(push.batch, push.order, oids, p, live[push.index[p]])
    {
      assert p in AsSet(push.order);
      assert p in push.order[..i];
      var k :| 0 <= k < i && push.order[k] == p;
      assert k == push.index[p];
      OccursIn(push.batch[c], p);
      assert left[k] > 0;
    }
  }

  /** What every round of `prove` keeps. */
  ghost predicate Proving(push: Push, oids: seq<Oid>, i: nat, left: seq<nat>, live: map<nat, set<nat>>, evicted: bool)
  {
    && i <= |push.order|
    && Counts(push.batch, push.order, i, left)
    && LiveSound(push.batch, push.order, oids, live)
    && (forall k :: k in live ==> k < i)
    && (evicted || NoneLost(push.batch, push.order, oids, i, left, live))
  }

  /** The queries of the first `i` commits are answered soundly, and fully if nothing was lost. */
  ghost predicate Answered(push: Push, oids: seq<Oid>, reachable: seq<set<Oid>>, queries: seq<Query>, i: nat,
                           proven: set<(Oid, Oid)>, evicted: bool)
    requires |oids| == |reachable|
  {
    && (forall t, h :: (t, h) in proven ==>
          t in push.batch && Query(t, h) in queries && Settled(push.batch, oids, reachable, t, h))
    && (evicted || forall k :: 0 <= k < i && k < |push.order| ==>
          AllAnswered(push, oids, reachable, queries, push.order[k], proven))
  }

  ghost predicate AllAnswered(push: Push, oids: seq<Oid>, reachable: seq<set<Oid>>, queries: seq<Query>, c: Oid,
                              proven: set<(Oid, Oid)>)
    requires |oids| == |reachable|
  {
    forall h :: Query(c, h) in queries && Settled(push.batch, oids, reachable, c, h) ==> (c, h) in proven
  }

  lemma {:induction false} BoundedSize(s: set<nat>, n: nat)
    requires forall x :: x in s ==> x < n
    ensures |s| <= n
  {
    if n > 0 {
      BoundedSize(s - {n - 1}, n - 1);
      assert s <= (s - {n - 1}) + {n - 1};
    }
  }

  /** Fewer than `n` closures of fewer than `w` bits hold at most `n * w`. */
  lemma {:induction false} BitsBound(live: map<nat, set<nat>>, n: nat, w: nat)
    requires forall k :: k in live ==> k < n
    requires forall k, b :: k in live && b in live[k] ==> b < w
    ensures |Bits(live)| <= n * w
    decreases n
  {
    if n == 0 {
      assert Bits(live) == {};
    } else {
      var rest := live - {n - 1};
      BitsBound(rest, n - 1, w);
      if n - 1 in live {
        BitsDrop(live, n - 1);
        BoundedSize(live[n - 1], w);
      } else {
        assert rest == live;
      }
    }
  }

  lemma SoundIsBounded(batch: Batch, order: seq<Oid>, oids: seq<Oid>, live: map<nat, set<nat>>)
    requires LiveSound(batch, order, oids, live)
    ensures |Bits(live)| <= |order| * (|order| + |oids|)
  {
    hide Above, Touches, Bits;
    forall k, b | k in live && b in live[k] ensures b < |order| + |oids| {
      assert Says(batch, order, oids, order[k], b);
    }
    BitsBound(live, |order|, |order| + |oids|);
  }

  /** Building one commit's closure keeps what `prove` keeps, whichever closures survive. */
  lemma RoundKeeps(push: Push, oids: seq<Oid>, i: nat, left: seq<nat>, live: map<nat, set<nat>>, evicted: bool,
                   closure: set<nat>, after: seq<nat>, spared: map<nat, set<nat>>, kept: map<nat, set<nat>>)
    requires push.Valid() && i < |push.order| && push.order[i] in push.batch
    requires Proving(push, oids, i, left, live, evicted)
    requires SoundBits(push.batch, push.order, oids, push.order[i], closure)
    requires evicted || FullBits(push.batch, push.order, oids, push.order[i], closure)
    requires Fewer(push.order, left, push.batch[push.order[i]], after) && Spares(live, spared, after)
    requires if after[i] > 0 then PartOf(kept, spared[i := closure]) else kept == spared
    ensures LiveSound(push.batch, push.order, oids, spared[i := closure])
    ensures Proving(push, oids, i + 1, after, kept, evicted || (after[i] > 0 && kept != spared[i := closure]))
  {
    hide SoundBits, FullBits, IsTopo, Places, Occurs;
    assert Counts(push.batch, push.order, i + 1, after);
    assert LiveSound(push.batch, push.order, oids, kept);
    if !evicted && (after[i] > 0 ==> kept == spared[i := closure]) {
      forall k | 0 <= k < i + 1 && after[k] > 0
        ensures k in kept && FullBits(push.batch, push.order, oids, push.order[k], kept[k])
      {
        if k < i {
          assert left[k] > 0;
          assert k in live && k in spared;
        }
      }
    }
  }

  /** One pass over the order, in which each query is settled when its descendant comes up.

      Sound whatever is evicted, complete when nothing is, and nothing is while
      the cap has room for every bit the push could need.
  */
  method Prove(push: Push, oids: seq<Oid>, reachable: seq<set<Oid>>, queries: seq<Query>)
    returns (proven: set<(Oid, Oid)>, ghost evicted: bool)
    requires push.Valid() && Distinct(oids) && |oids| == |reachable|
    ensures forall t, h :: (t, h) in proven ==>
      t in push.batch && Query(t, h) in queries && Settled(push.batch, oids, reachable, t, h)
    ensures !evicted ==> forall c :: c in push.batch ==> AllAnswered(push, oids, reachable, queries, c, proven)
    ensures evicted ==> MAX_LIVE_ANCESTOR_BITS < |push.order| * (|push.order| + |oids|)
  {
    hide *;
    var asked := Asked(queries);
    var left := ChildrenLeft(push);
    var closures := new Closures();
    proven, evicted := {}, false;
    var at := 0;
    ProvingStart(push, oids, reachable, queries, left);
    while at < |push.order|
      invariant at <= |push.order| && closures.Valid() && closures.resident <= MAX_LIVE_ANCESTOR_BITS
      invariant |left| == |push.order| && Proving(push, oids, at, left, closures.live, evicted)
      invariant Answered(push, oids, reachable, queries, at, proven, evicted)
      invariant evicted ==> MAX_LIVE_ANCESTOR_BITS < |push.order| * (|push.order| + |oids|)
    {
      var c := push.order[at];
      InPush(push, at);
      var closure := ClosureOf(push, push.batch[c], closures, oids);
      ClosureIsRight(push, oids, at, left, closures.live, evicted, closure);
      var held := Answer(push, oids, reachable, c, closure, ParentsOf(asked, c));
      AnswerMore(push, oids, reachable, queries, asked, at, proven, evicted, closure, held);
      proven := proven + held;

      ghost var live := closures.live;
      CountsAhead(push, oids, at, left, live, evicted);
      var after := RetireParents(push, push.batch[c], closures, left);
      ghost var spared := closures.live;
      NotYetLive(push, oids, at, left, live, evicted, after, spared);
      if after[at] > 0 {
        closures.Keep(at, closure, MAX_LIVE_ANCESTOR_BITS);
      }
      RoundKeeps(push, oids, at, left, live, evicted, closure, after, spared, closures.live);
      SoundIsBounded(push.batch, push.order, oids, spared[at := closure]);
      evicted := evicted || (after[at] > 0 && closures.live != spared[at := closure]);
      left := after;
      at := at + 1;
    }
    AllAreAnswered(push, oids, reachable, queries, proven, evicted);
  }

  lemma ProvingStart(push: Push, oids: seq<Oid>, reachable: seq<set<Oid>>, queries: seq<Query>, left: seq<nat>)
    requires Counts(push.batch, push.order, 0, left) && |oids| == |reachable|
    ensures |left| == |push.order| && Proving(push, oids, 0, left, map[], false)
    ensures Answered(push, oids, reachable, queries, 0, {}, false)
  {
  }

  lemma InPush(push: Push, i: nat)
    requires push.Valid() && i < |push.order|
    ensures push.order[i] in push.batch
  {
    assert push.order[i] in AsSet(push.order);
  }

  lemma ClosureIsRight(push: Push, oids: seq<Oid>, i: nat, left: seq<nat>, live: map<nat, set<nat>>, evicted: bool,
                       closure: set<nat>)
    requires push.Valid() && i < |push.order| && push.order[i] in push.batch
    requires Proving(push, oids, i, left, live, evicted)
    requires Folds(push.index, live, oids, |push.order|, push.batch[push.order[i]], closure)
    ensures SoundBits(push.batch, push.order, oids, push.order[i], closure)
    ensures evicted || FullBits(push.batch, push.order, oids, push.order[i], closure)
  {
    hide Folds, SoundBits, FullBits, NoneLost, LiveSound, Counts, Distinct, ParentsFirst, Places;
    FoldsSound(push.batch, push.order, oids, push.index, live, push.order[i], closure);
    if !evicted {
      ParentsAreLive(push, oids, i, left, live);
      FoldsFull(push.batch, push.order, oids, push.index, live, push.order[i], closure);
    }
  }

  lemma NotYetLive(push: Push, oids: seq<Oid>, i: nat, left: seq<nat>, live: map<nat, set<nat>>, evicted: bool,
                   after: seq<nat>, spared: map<nat, set<nat>>)
    requires Proving(push, oids, i, left, live, evicted) && Spares(live, spared, after)
    ensures i !in spared
  {
  }

  lemma CountsAhead(push: Push, oids: seq<Oid>, i: nat, left: seq<nat>, live: map<nat, set<nat>>, evicted: bool)
    requires i < |push.order| && push.order[i] in push.batch && Proving(push, oids, i, left, live, evicted)
    ensures |left| == |push.order|
    ensures forall k :: 0 <= k < |left| ==> left[k] >= Occurs(push.batch[push.order[i]], push.order[k])
  {
  }

  lemma AnswerMore(push: Push, oids: seq<Oid>, reachable: seq<set<Oid>>, queries: seq<Query>, asked: map<Oid, seq<Oid>>,
                   i: nat, proven: set<(Oid, Oid)>, evicted: bool, closure: set<nat>, held: set<(Oid, Oid)>)
    requires push.Valid() && |oids| == |reachable| && i < |push.order| && push.order[i] in push.batch
    requires Groups(queries, asked) && Answered(push, oids, reachable, queries, i, proven, evicted)
    requires evicted || FullBits(push.batch, push.order, oids, push.order[i], closure)
    requires forall t, h :: (t, h) in held ==>
      t == push.order[i] && h in ParentsOf(asked, t) && Settled(push.batch, oids, reachable, t, h)
    requires FullBits(push.batch, push.order, oids, push.order[i], closure) ==>
      forall h :: h in ParentsOf(asked, push.order[i]) && Settled(push.batch, oids, reachable, push.order[i], h)
        ==> (push.order[i], h) in held
    ensures Answered(push, oids, reachable, queries, i + 1, proven + held, evicted)
    ensures Answered(push, oids, reachable, queries, i + 1, proven + held, true)
  {
    hide Settled, Places, IsTopo, FullBits;
    if !evicted {
      forall k | 0 <= k < i + 1 ensures AllAnswered(push, oids, reachable, queries, push.order[k], proven + held) {
        if k < i {
          assert AllAnswered(push, oids, reachable, queries, push.order[k], proven);
        }
      }
    }
  }

  lemma AllAreAnswered(push: Push, oids: seq<Oid>, reachable: seq<set<Oid>>, queries: seq<Query>,
                       proven: set<(Oid, Oid)>, evicted: bool)
    requires push.Valid() && |oids| == |reachable|
    requires Answered(push, oids, reachable, queries, |push.order|, proven, evicted)
    ensures forall t, h :: (t, h) in proven ==>
      t in push.batch && Query(t, h) in queries && Settled(push.batch, oids, reachable, t, h)
    ensures !evicted ==> forall c :: c in push.batch ==> AllAnswered(push, oids, reachable, queries, c, proven)
  {
    hide AllAnswered, Settled;
    if !evicted {
      forall c | c in push.batch ensures AllAnswered(push, oids, reachable, queries, c, proven) {
        assert c in AsSet(push.order);
        var k :| 0 <= k < |push.order| && push.order[k] == c;
      }
    }
  }

  // ------------------------------------------------------------- soundness

  /** The push's parent edges are edges of the history. */
  ghost predicate Recorded(batch: Batch, history: (Oid, Oid) -> bool)
  {
    forall c, p {:trigger history(c, p)} :: c in batch && p in batch[c] ==> history(c, p)
  }

  /** Every answer about a boundary is true of the repository's history. */
  ghost predicate AnswersAreTrue(history: (Oid, Oid) -> bool, oids: seq<Oid>, reachable: seq<set<Oid>>)
    requires |oids| == |reachable|
  {
    forall b, h :: 0 <= b < |oids| && h in reachable[b] ==> Reaches(history, {oids[b]}, h)
  }

  /** What is settled is real ancestry, once every boundary's answer is. */
  lemma SettledIsAncestry(batch: Batch, oids: seq<Oid>, reachable: seq<set<Oid>>, history: (Oid, Oid) -> bool, t: Oid,
                          h: Oid)
    requires |oids| == |reachable| && t in batch
    requires Recorded(batch, history)
    requires AnswersAreTrue(history, oids, reachable)
    requires Settled(batch, oids, reachable, t, h)
    ensures Reaches(history, {t}, h)
  {
    hide Reaches;
    if h in batch {
      var p :| ParentIn(batch)(t, p) && Within(batch, p, h);
      WithinUp(batch, t, p, h);
      WithinIsHistory(batch, history, t, h);
    } else {
      var b :| 0 <= b < |oids| && h in reachable[b] && Touches(batch, t, oids[b]);
      var x :| Within(batch, t, x) && x in batch && oids[b] in batch[x];
      WithinIsHistory(batch, history, t, x);
      EdgeRecorded(batch, history, x, oids[b]);
      ReachStep(history, {t}, x, oids[b]);
      var mid := {oids[b]};
      assert forall m :: m in mid ==> Reaches(history, {t}, m);
      ReachTrans(history, {t}, mid, h);
    }
  }

  lemma WithinIsHistory(batch: Batch, history: (Oid, Oid) -> bool, c: Oid, a: Oid)
    requires Recorded(batch, history)
    requires Within(batch, c, a)
    ensures Reaches(history, {c}, a)
  {
    hide Recorded;
    var edge := ParentIn(batch);
    var p :| Leads(edge, {c}, p, a);
    forall i | 0 <= i < |p| - 1 ensures history(p[i], p[i + 1]) {
      assert edge(p[i], p[i + 1]);
      EdgeRecorded(batch, history, p[i], p[i + 1]);
    }
    assert Leads(history, {c}, p, a);
  }

  lemma EdgeRecorded(batch: Batch, history: (Oid, Oid) -> bool, c: Oid, p: Oid)
    requires Recorded(batch, history) && c in batch && p in batch[c]
    ensures history(c, p)
  {
  }
}
