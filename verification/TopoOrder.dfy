/** Ordering a push's commits so every commit follows its in-batch parents. */
module TopoOrder {
  import opened Graphs
  import opened Bands
  import opened Objects

  /** Each commit's parents. */
  type Batch = map<Oid, seq<Oid>>

  /** A commit's parent edges inside the batch. */
  ghost function ParentIn(batch: Batch): (Oid, Oid) -> bool
  {
    (c, p) => c in batch && p in batch && p in batch[c]
  }

  /** Every commit of the batch once, each after its in-batch parents. */
  ghost predicate IsTopo(batch: Batch, order: seq<Oid>)
  {
    && Distinct(order)
    && AsSet(order) == batch.Keys
    && ParentsFirst(batch, order)
  }

  ghost predicate ParentsFirst(batch: Batch, order: seq<Oid>)
  {
    forall i, p :: 0 <= i < |order| && order[i] in batch && p in batch[order[i]] && p in batch ==> p in order[..i]
  }

  /** How many of `parents` are in the batch and not yet ordered, with repeats. */
  function Pending(parents: seq<Oid>, batch: set<Oid>, done: set<Oid>): nat
  {
    if parents == [] then 0
    else
      (if parents[0] in batch && parents[0] !in done then 1 else 0) + Pending(parents[1..], batch, done)
  }

  /** How often `x` occurs. */
  function Occurs(s: seq<Oid>, x: Oid): nat
  {
    if s == [] then 0 else (if s[0] == x then 1 else 0) + Occurs(s[1..], x)
  }

  lemma {:induction false} OccursAppend(s: seq<Oid>, y: Oid, x: Oid)
    ensures Occurs(s + [y], x) == Occurs(s, x) + if y == x then 1 else 0
  {
    if s != [] {
      OccursAppend(s[1..], y, x);
      assert (s + [y])[1..] == s[1..] + [y];
    }
  }

  lemma {:induction false} OccursPrefix(s: seq<Oid>, k: nat, x: Oid)
    requires k <= |s|
    ensures Occurs(s[..k], x) <= Occurs(s, x)
  {
    if k < |s| {
      OccursPrefix(s[..|s| - 1], k, x);
      assert s[..|s| - 1][..k] == s[..k];
      OccursAppend(s[..|s| - 1], s[|s| - 1], x);
      assert s == s[..|s| - 1] + [s[|s| - 1]];
    } else {
      assert s[..k] == s;
    }
  }

  lemma {:induction false} OccursIn(s: seq<Oid>, x: Oid)
    ensures Occurs(s, x) > 0 <==> x in s
  {
    if s != [] {
      OccursIn(s[1..], x);
    }
  }

  lemma {:induction false} PendingPop(parents: seq<Oid>, batch: set<Oid>, done: set<Oid>, x: Oid)
    requires x in batch && x !in done
    ensures Pending(parents, batch, done) == Pending(parents, batch, done + {x}) + Occurs(parents, x)
  {
    if parents != [] {
      PendingPop(parents[1..], batch, done, x);
      assert parents == [parents[0]] + parents[1..];
    }
  }

  lemma {:induction false} PendingZero(parents: seq<Oid>, batch: set<Oid>, done: set<Oid>)
    ensures Pending(parents, batch, done) == 0 <==> forall p :: p in parents && p in batch ==> p in done
  {
    if parents != [] {
      PendingZero(parents[1..], batch, done);
      assert forall p :: p in parents <==> p == parents[0] || p in parents[1..];
    }
  }

  lemma {:induction false} PendingAppend(parents: seq<Oid>, x: Oid, batch: set<Oid>, done: set<Oid>)
    ensures Pending(parents + [x], batch, done)
      == Pending(parents, batch, done) + if x in batch && x !in done then 1 else 0
  {
    if parents != [] {
      PendingAppend(parents[1..], x, batch, done);
      assert (parents + [x])[1..] == parents[1..] + [x];
    }
  }

  lemma MinExists(s: set<Oid>) returns (m: Oid)
    requires s != {}
    ensures m in s && forall x :: x in s ==> m <= x
    decreases s
  {
    m := PickGhost(s);
    if s != {m} {
      var rest := s - {m};
      var least := MinExists(rest);
      assert forall x :: x in s ==> x == m || x in rest;
      m := if least < m then least else m;
    }
  }

  /** The members of `s`, ascending. */
  ghost function Sorted(s: set<Oid>): (q: seq<Oid>)
    ensures Ascending(q) && AsSet(q) == s
  {
    if s == {} then []
    else
      assert exists m :: m in s && forall x :: x in s ==> m <= x by { var m := MinExists(s); }
      var m :| m in s && forall x :: x in s ==> m <= x;
      var rest := Sorted(s - {m});
      LeastFirst(s, m, rest);
      [m] + rest
  }

  lemma LeastFirst(s: set<Oid>, m: Oid, rest: seq<Oid>)
    requires m in s && (forall x :: x in s ==> m <= x) && Ascending(rest) && AsSet(rest) == s - {m}
    ensures Ascending([m] + rest) && AsSet([m] + rest) == s
  {
    assert forall i :: 0 <= i < |rest| ==> rest[i] in AsSet(rest);
    assert AsSet([m] + rest) == {m} + AsSet(rest);
  }

  /** Two ascending sequences of the same members are the same sequence. */
  lemma {:induction false} AscendingUnique(a: seq<Oid>, b: seq<Oid>)
    requires Ascending(a) && Ascending(b) && AsSet(a) == AsSet(b)
    ensures a == b
  {
    if a == [] {
      assert forall i :: 0 <= i < |b| ==> b[i] in AsSet(b);
    } else {
      assert a[0] in AsSet(b);
      var i :| 0 <= i < |b| && b[i] == a[0];
      assert b[0] in AsSet(a);
      var j :| 0 <= j < |a| && a[j] == b[0];
      assert a[0] == b[0];
      assert a == [a[0]] + a[1..] && b == [b[0]] + b[1..];
      assert AsSet(a[1..]) == AsSet(a) - {a[0]};
      assert AsSet(b[1..]) == AsSet(b) - {b[0]};
      AscendingUnique(a[1..], b[1..]);
    }
  }

  /** The commits that become ready when `x` is ordered: it was the last
      in-batch parent each of them was waiting for. */
  ghost function Freed(batch: Batch, done: set<Oid>, x: Oid): set<Oid>
  {
    set c | c in batch && x in batch[c] && Pending(batch[c], batch.Keys, done + {x}) == 0
  }

  ghost function Roots(batch: Batch): set<Oid>
  {
    set c | c in batch && Pending(batch[c], batch.Keys, {}) == 0
  }

  /** The rest of the order, given what is ordered and what is queued: a
      function of the batch alone, whatever order a hash map yields it in. */
  ghost function KahnFrom(batch: Batch, order: seq<Oid>, queue: seq<Oid>): seq<Oid>
    decreases |batch| - |order|
  {
    if queue == [] || |order| >= |batch| then order
    else
      KahnFrom(batch, order + [queue[0]], queue[1..] + Sorted(Freed(batch, AsSet(order), queue[0])))
  }

  // ------------------------------------------------------- whose turn it is

  /** Where the last of `c`'s parents stands in the order, or before it all if none does. */
  ghost predicate LastParent(batch: Batch, order: seq<Oid>, c: Oid, k: int)
    requires c in batch
  {
    && -1 <= k < |order| && (k >= 0 ==> order[k] in batch[c])
    && forall m :: k < m < |order| ==> order[m] !in batch[c]
  }

  /** Commits come in the order their last parents do, and those freed together by oid. */
  ghost predicate TakesTurns(batch: Batch, order: seq<Oid>)
  {
    && (forall i :: 0 <= i < |order| ==> order[i] in batch)
    && forall i, j, k, l | 0 <= i < j < |order| && order[i] in batch && order[j] in batch ::
         LastParent(batch, order, order[i], k) && LastParent(batch, order, order[j], l) ==>
           k < l || (k == l && order[i] < order[j])
  }

  /** `freed[i]` is where the last parent of each commit ordered or queued stands. */
  ghost predicate FreedAt(batch: Batch, order: seq<Oid>, queue: seq<Oid>, freed: seq<int>)
  {
    var all := order + queue;
    && Distinct(all) && |freed| == |all|
    && (forall i :: 0 <= i < |all| ==> all[i] in batch && LastParent(batch, order, all[i], freed[i]))
    && (forall i, p :: 0 <= i < |all| && p in batch[all[i]] && p in batch ==> p in order)
    && (forall i, j :: 0 <= i < j < |all| ==> freed[i] < freed[j] || (freed[i] == freed[j] && all[i] < all[j]))
  }

  lemma LastIsOne(batch: Batch, order: seq<Oid>, c: Oid, k: int, l: int)
    requires c in batch && LastParent(batch, order, c, k) && LastParent(batch, order, c, l)
    ensures k == l
  {
  }

  lemma FreedTakesTurns(batch: Batch, order: seq<Oid>, queue: seq<Oid>, freed: seq<int>)
    requires FreedAt(batch, order, queue, freed)
    ensures TakesTurns(batch, order)
  {
    hide LastParent;
    var all := order + queue;
    assert forall i :: 0 <= i < |order| ==> order[i] == all[i];
    forall i, j, k, l | 0 <= i < j < |order| && order[i] in batch && order[j] in batch
      && LastParent(batch, order, order[i], k) && LastParent(batch, order, order[j], l)
      ensures k < l || (k == l && order[i] < order[j])
    {
      LastIsOne(batch, order, order[i], k, freed[i]);
      LastIsOne(batch, order, order[j], l, freed[j]);
    }
  }

  /** Ordering the first in the queue frees those it was the last parent of, behind the rest. */
  lemma FreedStep(batch: Batch, order: seq<Oid>, queue: seq<Oid>, freed: seq<int>)
    requires FreedAt(batch, order, queue, freed) && queue != []
    ensures var more := Sorted(Freed(batch, AsSet(order), queue[0]));
      FreedAt(batch, order + [queue[0]], queue[1..] + more, freed + seq(|more|, _ => |order|))
  {
    hide Sorted, Pending;
    var x := queue[0];
    var all, more := order + queue, Sorted(Freed(batch, AsSet(order), x));
    var order', freed' := order + [x], freed + seq(|more|, _ => |order|);
    var all' := order' + (queue[1..] + more);
    assert all' == all + more;
    assert all[|order|] == x;
    FirstIsNew(order, queue);
    forall c | c in more ensures c in batch && c !in all && x in batch[c] {
      MoreIsNew(batch, order, queue, freed, c);
    }
    forall i, p | 0 <= i < |all'| && p in batch[all'[i]] && p in batch ensures p in order' {
      if i >= |all| {
        assert all'[i] == more[i - |all|] && more[i - |all|] in more;
        FreedIsReady(batch, order, x, all'[i], p);
      } else {
        assert p in batch[all[i]];
      }
    }
    forall i | 0 <= i < |all'| ensures all'[i] in batch && LastParent(batch, order', all'[i], freed'[i]) {
      if i < |all| {
        assert x in batch && x !in batch[all[i]];
      } else {
        assert all'[i] == more[i - |all|] && more[i - |all|] in more;
      }
    }
    MoreIsDistinct(all, more);
    forall i, j | 0 <= i < j < |all'|
      ensures freed'[i] < freed'[j] || (freed'[i] == freed'[j] && all'[i] < all'[j])
    {
      if j >= |all| {
        assert all'[j] == more[j - |all|];
        if i < |all| {
          assert freed[i] < |order|;
        }
      }
    }
  }

  lemma FirstIsNew(order: seq<Oid>, queue: seq<Oid>)
    requires Distinct(order + queue) && queue != []
    ensures queue[0] !in order
  {
    var all := order + queue;
    assert forall m :: 0 <= m < |order| ==> order[m] == all[m] != all[|order|];
  }

  lemma MoreIsDistinct(all: seq<Oid>, more: seq<Oid>)
    requires Distinct(all) && Ascending(more) && forall c :: c in more ==> c !in all
    ensures Distinct(all + more)
  {
    var whole := all + more;
    forall i, j | 0 <= i < j < |whole| ensures whole[i] != whole[j] {
      if i < |all| <= j {
        assert whole[j] == more[j - |all|] && more[j - |all|] in more && whole[i] in all;
      }
    }
  }

  lemma FreedIsReady(batch: Batch, order: seq<Oid>, x: Oid, c: Oid, p: Oid)
    requires c in Freed(batch, AsSet(order), x) && p in batch[c] && p in batch
    ensures p in order + [x]
  {
    NonePending(batch[c], batch.Keys, AsSet(order) + {x}, p);
  }

  lemma {:induction false} NonePending(parents: seq<Oid>, batch: set<Oid>, done: set<Oid>, p: Oid)
    requires Pending(parents, batch, done) == 0 && p in parents && p in batch
    ensures p in done
  {
    if parents[0] != p {
      NonePending(parents[1..], batch, done, p);
    }
  }

  lemma MoreIsNew(batch: Batch, order: seq<Oid>, queue: seq<Oid>, freed: seq<int>, c: Oid)
    requires FreedAt(batch, order, queue, freed) && queue != []
    requires c in Sorted(Freed(batch, AsSet(order), queue[0]))
    ensures c in batch && c !in order + queue && queue[0] in batch[c]
  {
    hide Sorted, Pending, LastParent;
    var x, all := queue[0], order + queue;
    assert c in AsSet(Sorted(Freed(batch, AsSet(order), x)));
    if c in all {
      var i :| 0 <= i < |all| && all[i] == c;
      assert all[|order|] == x && x in batch;
      FirstIsNew(order, queue);
    }
  }

  lemma {:induction false} KahnTakesTurns(batch: Batch, order: seq<Oid>, queue: seq<Oid>, freed: seq<int>)
    requires FreedAt(batch, order, queue, freed)
    ensures TakesTurns(batch, KahnFrom(batch, order, queue))
    decreases |batch| - |order|
  {
    hide Sorted, Freed, FreedAt, TakesTurns;
    if queue == [] || |order| >= |batch| {
      FreedTakesTurns(batch, order, queue, freed);
    } else {
      var more := Sorted(Freed(batch, AsSet(order), queue[0]));
      FreedStep(batch, order, queue, freed);
      KahnTakesTurns(batch, order + [queue[0]], queue[1..] + more, freed + seq(|more|, _ => |order|));
    }
  }

  lemma RootsAreFreed(batch: Batch)
    ensures var roots := Sorted(Roots(batch)); FreedAt(batch, [], roots, seq(|roots|, _ => -1))
  {
    hide Sorted, Pending;
    var roots := Sorted(Roots(batch));
    assert [] + roots == roots;
    forall i | 0 <= i < |roots| ensures roots[i] in Roots(batch) {
      assert roots[i] in AsSet(roots);
    }
    forall i, p | 0 <= i < |roots| && p in batch[roots[i]] && p in batch ensures false {
      NonePending(batch[roots[i]], batch.Keys, {}, p);
    }
  }

  function WaitingOn(waiting: map<Oid, seq<Oid>>, p: Oid): seq<Oid>
  {
    if p in waiting then waiting[p] else []
  }

  /** Edges indexed so far: those out of `seen`, of which commit `at` shows only
      the parents already read. `degree` counts them by child and `waiting`
      lists them by parent, once per occurrence. */
  ghost predicate Indexed(batch: Batch, seen: Batch, degree: map<Oid, nat>, waiting: map<Oid, seq<Oid>>)
  {
    && seen.Keys == degree.Keys == batch.Keys
    && (forall c :: c in batch ==> degree[c] == Pending(seen[c], batch.Keys, {}))
    && Waiters(batch, seen, waiting)
  }

  ghost predicate Waiters(batch: Batch, seen: Batch, waiting: map<Oid, seq<Oid>>)
    requires seen.Keys == batch.Keys
  {
    && (forall p, c :: p in batch && c in batch ==> Occurs(WaitingOn(waiting, p), c) == Occurs(seen[c], p))
    && (forall p, c :: p in batch && c in WaitingOn(waiting, p) ==> c in batch)
  }

  /** One more parent of `at` indexed. */
  lemma IndexOne(batch: Batch, seen: Batch, at: Oid, p: Oid, degree: map<Oid, nat>, waiting: map<Oid, seq<Oid>>)
    requires at in batch && Indexed(batch, seen, degree, waiting)
    ensures if p in batch
      then Indexed(batch, seen[at := seen[at] + [p]],
                   degree[at := degree[at] + 1], waiting[p := WaitingOn(waiting, p) + [at]])
      else Indexed(batch, seen[at := seen[at] + [p]], degree, waiting)
  {
    hide Occurs;
    hide Pending;
    PendingAppend(seen[at], p, batch.Keys, {});
    var seen' := seen[at := seen[at] + [p]];
    var waiting' := if p in batch then waiting[p := WaitingOn(waiting, p) + [at]] else waiting;
    forall q, c | q in batch && c in batch ensures Occurs(WaitingOn(waiting', q), c) == Occurs(seen'[c], q) {
      OccursAppend(seen[at], p, q);
      OccursAppend(WaitingOn(waiting, p), at, c);
    }
  }

  /** Counts each commit's in-batch parents and lists who waits on whom,
      taking the batch in whatever order its hash map yields it. */
  method IndexEdges(batch: Batch) returns (degree: map<Oid, nat>, waiting: map<Oid, seq<Oid>>)
    ensures Indexed(batch, batch, degree, waiting)
  {
    hide Occurs;
    hide Pending;
    degree := map c | c in batch :: 0;
    waiting := map[];
    var rest := batch.Keys;
    ghost var seen: Batch := map c | c in batch :: [];
    NothingIndexed(batch);
    while rest != {}
      invariant rest <= batch.Keys
      invariant Indexed(batch, seen, degree, waiting)
      invariant forall c :: c in batch ==> seen[c] == if c in rest then [] else batch[c]
      decreases rest
    {
      var at := Pick(rest);
      rest := rest - {at};
      degree, waiting := IndexCommit(batch, seen, at, degree, waiting);
      seen := seen[at := batch[at]];
    }
    assert seen == batch by {
      assert seen.Keys == batch.Keys;
      forall c | c in batch ensures seen[c] == batch[c] { }
    }
  }

  method IndexCommit(batch: Batch, ghost seen: Batch, at: Oid, degree: map<Oid, nat>, waiting: map<Oid, seq<Oid>>)
    returns (degree': map<Oid, nat>, waiting': map<Oid, seq<Oid>>)
    requires at in batch && Indexed(batch, seen, degree, waiting) && seen[at] == []
    ensures Indexed(batch, seen[at := batch[at]], degree', waiting')
  {
    hide Occurs;
    hide Pending;
    hide Waiters;
    degree', waiting' := degree, waiting;
    ghost var seen' := seen;
    for j := 0 to |batch[at]|
      invariant Indexed(batch, seen', degree', waiting')
      invariant seen' == seen[at := batch[at][..j]]
    {
      var p := batch[at][j];
      assert batch[at][..j + 1] == batch[at][..j] + [p];
      IndexOne(batch, seen', at, p, degree', waiting');
      seen' := seen'[at := seen'[at] + [p]];
      if p in batch {
        degree' := degree'[at := degree'[at] + 1];
        waiting' := waiting'[p := WaitingOn(waiting', p) + [at]];
      }
    }
    assert batch[at][..|batch[at]|] == batch[at];
  }

  lemma NothingIndexed(batch: Batch)
    ensures Indexed(batch, map c | c in batch :: [], map c | c in batch :: 0, map[])
  {
  }

  /** Where the queue stands: degrees count what is still unordered, and the
      queue holds exactly the ready commits not yet ordered. */
  ghost predicate Queued(batch: Batch, order: seq<Oid>, queue: seq<Oid>, degree: map<Oid, nat>)
  {
    && Distinct(order + queue)
    && degree.Keys == batch.Keys
    && (forall c :: c in batch ==> degree[c] == Pending(batch[c], batch.Keys, AsSet(order)))
    && (forall c :: c in order || c in queue ==> c in batch)
    && (forall c :: c in batch && degree[c] == 0 <==> c in order || c in queue)
    && ParentsFirst(batch, order)
  }

  /** Drops one in-degree per edge out of `x`, listing what reaches zero. */
  method Release(batch: Batch, ghost done: set<Oid>, x: Oid, waiting: map<Oid, seq<Oid>>, degree: map<Oid, nat>)
    returns (degree': map<Oid, nat>, freed: seq<Oid>)
    requires x in batch && x !in done && Waiters(batch, batch, waiting) && degree.Keys == batch.Keys
    requires forall c :: c in batch ==> degree[c] == Pending(batch[c], batch.Keys, done)
    ensures degree'.Keys == batch.Keys
    ensures forall c :: c in batch ==> degree'[c] == Pending(batch[c], batch.Keys, done + {x})
    ensures Distinct(freed) && AsSet(freed) == Freed(batch, done, x)
  {
    hide Occurs;
    hide Pending;
    var list := WaitingOn(waiting, x);
    forall c | c in batch
      ensures degree[c] == Pending(batch[c], batch.Keys, done + {x}) + Occurs(list, c)
      ensures c in list <==> x in batch[c]
    {
      PendingPop(batch[c], batch.Keys, done, x);
      OccursIn(list, c);
      OccursIn(batch[c], x);
    }
    degree', freed := degree, [];
    NoneOccurs(list);
    for k := 0 to |list|
      invariant degree'.Keys == batch.Keys
      invariant forall c :: c in batch ==> degree'[c] + Occurs(list[..k], c) == degree[c]
      invariant Distinct(freed)
      invariant forall c :: c in freed <==> c in list[..k] && c in batch && degree'[c] == 0
    {
      var dep := list[k];
      assert list[..k + 1] == list[..k] + [dep];
      forall c ensures Occurs(list[..k + 1], c) == Occurs(list[..k], c) + if dep == c then 1 else 0 {
        OccursAppend(list[..k], dep, c);
      }
      OccursPrefix(list, k + 1, dep);
      assert dep in list;
      degree' := degree'[dep := degree'[dep] - 1];
      if degree'[dep] == 0 {
        freed := freed + [dep];
      }
    }
    assert list[..|list|] == list;
    forall c ensures c in AsSet(freed) <==> c in Freed(batch, done, x) { }
  }

  lemma NoneOccurs(s: seq<Oid>)
    ensures forall c :: Occurs(s[..0], c) == 0
  {
  }

  lemma HeadIsNew(order: seq<Oid>, queue: seq<Oid>)
    requires Distinct(order + queue) && queue != []
    ensures queue[0] in queue && queue[0] !in order && queue[0] !in AsSet(order)
  {
    var all := order + queue;
    assert all[|order|] == queue[0];
    forall i | 0 <= i < |order| ensures order[i] != queue[0] {
      assert all[i] == order[i];
    }
  }

  lemma QueueStep(batch: Batch, order: seq<Oid>, queue: seq<Oid>, degree: map<Oid, nat>,
                  degree': map<Oid, nat>, freed: seq<Oid>)
    requires Queued(batch, order, queue, degree) && queue != []
    requires degree'.Keys == batch.Keys
    requires forall c :: c in batch ==> degree'[c] == Pending(batch[c], batch.Keys, AsSet(order) + {queue[0]})
    requires Ascending(freed) && AsSet(freed) == Freed(batch, AsSet(order), queue[0])
    ensures Queued(batch, order + [queue[0]], queue[1..] + freed, degree')
  {
    var x := queue[0];
    HeadIsNew(order, queue);
    AsSetAppend(order, x);
    assert queue == [x] + queue[1..];
    hide Pending;
    forall c | c in freed ensures c in batch { assert c in AsSet(freed); }
    forall c | c in batch ensures degree'[c] == 0 <==> c in order + [x] || c in queue[1..] + freed {
      QueueReady(batch, order, queue, degree, degree', freed, c);
    }
    StillUnrepeated(batch, order, queue, degree, freed);
    ReadyParents(batch, order, queue, degree);
  }

  lemma QueueReady(batch: Batch, order: seq<Oid>, queue: seq<Oid>, degree: map<Oid, nat>,
                   degree': map<Oid, nat>, freed: seq<Oid>, c: Oid)
    requires Queued(batch, order, queue, degree) && queue != [] && c in batch
    requires degree'.Keys == batch.Keys
    requires degree'[c] == Pending(batch[c], batch.Keys, AsSet(order) + {queue[0]})
    requires AsSet(freed) == Freed(batch, AsSet(order), queue[0])
    ensures degree'[c] == 0 <==> c in order + [queue[0]] || c in queue[1..] + freed
  {
    hide Pending;
    var x := queue[0];
    HeadIsNew(order, queue);
    assert queue == [x] + queue[1..];
    PendingPop(batch[c], batch.Keys, AsSet(order), x);
    OccursIn(batch[c], x);
    assert c in freed <==> c in AsSet(freed);
  }

  lemma StillUnrepeated(batch: Batch, order: seq<Oid>, queue: seq<Oid>, degree: map<Oid, nat>, freed: seq<Oid>)
    requires Queued(batch, order, queue, degree) && queue != []
    requires Ascending(freed) && AsSet(freed) == Freed(batch, AsSet(order), queue[0])
    ensures Distinct((order + [queue[0]]) + (queue[1..] + freed))
  {
    hide Pending;
    var x := queue[0];
    var all := (order + [x]) + (queue[1..] + freed);
    assert queue == [x] + queue[1..];
    assert all == (order + queue) + freed;
    HeadIsNew(order, queue);
    forall i, j | 0 <= i < j < |all| ensures all[i] != all[j] {
      if i < |order + queue| <= j {
        var c := all[j];
        assert c == freed[j - |order + queue|] && c in AsSet(freed);
        PendingPop(batch[c], batch.Keys, AsSet(order), x);
        OccursIn(batch[c], x);
        assert degree[c] != 0;
        assert all[i] == (order + queue)[i] && all[i] in order + queue;
      }
    }
  }

  lemma ReadyParents(batch: Batch, order: seq<Oid>, queue: seq<Oid>, degree: map<Oid, nat>)
    requires Queued(batch, order, queue, degree) && queue != []
    ensures ParentsFirst(batch, order + [queue[0]])
  {
    var x, next := queue[0], order + [queue[0]];
    assert x in queue;
    PendingZero(batch[x], batch.Keys, AsSet(order));
    forall i, p | 0 <= i < |next| && next[i] in batch && p in batch[next[i]] && p in batch
      ensures p in next[..i]
    {
      if i < |order| {
        assert next[..i] == order[..i];
      } else {
        assert next[..i] == order;
      }
    }
  }

  /** The order, or that the batch has a cycle. */
  datatype Topo = Ordered(order: seq<Oid>) | CycleDetected

  /** Kahn's algorithm with sorted ready sets: it succeeds exactly when the
      batch is acyclic, and its answer is a function of the batch alone. */
  method Order(batch: Batch) returns (r: Topo)
    ensures r.Ordered? <==> Acyclic(ParentIn(batch))
    ensures r.Ordered? ==> IsTopo(batch, r.order)
    ensures r.Ordered? ==> r.order == KahnFrom(batch, [], Sorted(Roots(batch)))
    ensures r.Ordered? ==> TakesTurns(batch, r.order)
  {
    RootsAreFreed(batch);
    KahnTakesTurns(batch, [], Sorted(Roots(batch)), seq(|Sorted(Roots(batch))|, _ => -1));
    hide TakesTurns, FreedAt;
    hide Acyclic;
    hide Pending;
    hide Occurs;
    var degree, waiting := IndexEdges(batch);
    var ready := set c | c in batch && degree[c] == 0;
    var queue := InOrder(ready);
    forall c ensures c in ready <==> c in Roots(batch) { }
    AscendingUnique(queue, Sorted(Roots(batch)));
    var order: seq<Oid> := [];
    QueueStart(batch, queue, degree);
    while queue != []
      invariant Queued(batch, order, queue, degree)
      invariant KahnFrom(batch, order, queue) == KahnFrom(batch, [], Sorted(Roots(batch)))
      decreases batch.Keys - AsSet(order)
    {
      var x := queue[0];
      HeadIsNew(order, queue);
      var degree', freed := Release(batch, AsSet(order), x, waiting, degree);
      var next := InOrder(AsSet(freed));
      AscendingUnique(next, Sorted(Freed(batch, AsSet(order), x)));
      OrderedFit(batch, order, queue, degree);
      QueueStep(batch, order, queue, degree, degree', next);
      AsSetAppend(order, x);
      order, queue, degree := order + [x], queue[1..] + next, degree';
    }
    OrderedAll(batch, order, degree);
    if |order| != |batch| {
      return CycleDetected;
    }
    r := Ordered(order);
  }

  lemma QueueStart(batch: Batch, queue: seq<Oid>, degree: map<Oid, nat>)
    requires degree.Keys == batch.Keys
    requires forall c :: c in batch ==> degree[c] == Pending(batch[c], batch.Keys, {})
    requires Ascending(queue) && AsSet(queue) == set c | c in batch && degree[c] == 0
    ensures Queued(batch, [], queue, degree)
  {
    hide Pending;
    assert [] + queue == queue && AsSet([]) == {};
    assert forall c :: c in queue <==> c in AsSet(queue);
  }

  /** An unfinished order is shorter than the batch. */
  lemma OrderedFit(batch: Batch, order: seq<Oid>, queue: seq<Oid>, degree: map<Oid, nat>)
    requires Queued(batch, order, queue, degree) && queue != []
    ensures |order| < |batch|
  {
    hide Pending;
    var x := queue[0];
    HeadIsNew(order, queue);
    assert forall i :: 0 <= i < |order| ==> order[i] == (order + queue)[i];
    UnrepeatedSize(order);
    assert AsSet(order) <= batch.Keys - {x};
    SubsetSize(AsSet(order), batch.Keys - {x});
  }

  lemma {:induction false} UnrepeatedSize(q: seq<Oid>)
    requires Distinct(q)
    ensures |AsSet(q)| == |q|
  {
    if q != [] {
      var rest := q[..|q| - 1];
      UnrepeatedSize(rest);
      assert forall i :: 0 <= i < |rest| ==> rest[i] == q[i];
      assert q[|q| - 1] !in AsSet(rest);
      AsSetAppend(rest, q[|q| - 1]);
      assert q == rest + [q[|q| - 1]];
    }
  }

  lemma {:induction false} SubsetSize(a: set<Oid>, b: set<Oid>)
    requires a <= b
    ensures |a| <= |b|
    ensures |a| == |b| ==> a == b
  {
    assert b == a + (b - a);
  }

  /** With the queue empty, all is ordered exactly when nothing is stuck. */
  lemma OrderedAll(batch: Batch, order: seq<Oid>, degree: map<Oid, nat>)
    requires Queued(batch, order, [], degree)
    ensures |order| == |batch| <==> Acyclic(ParentIn(batch))
    ensures |order| == |batch| ==> IsTopo(batch, order)
  {
    hide Pending;
    hide Acyclic;
    hide Queued;
    QueuedSize(batch, order, degree);
    if |order| == |batch| {
      OrderedIsAcyclic(batch, order);
    } else {
      StuckIsCyclic(batch, order, degree);
    }
  }

  lemma QueuedSize(batch: Batch, order: seq<Oid>, degree: map<Oid, nat>)
    requires Queued(batch, order, [], degree)
    ensures |order| == |batch| ==> IsTopo(batch, order)
    ensures |order| != |batch| ==> AsSet(order) < batch.Keys
  {
    hide Pending;
    assert order + [] == order;
    UnrepeatedSize(order);
    assert AsSet(order) <= batch.Keys;
    SizedSubset(AsSet(order), batch.Keys);
    assert |batch| == |batch.Keys|;
  }

  lemma SizedSubset(a: set<Oid>, b: set<Oid>)
    requires a <= b
    ensures |a| == |b| ==> a == b
    ensures |a| != |b| ==> a < b
  {
    SubsetSize(a, b);
    if b <= a { assert a == b; }
  }

  ghost function IndexOf(order: seq<Oid>, x: Oid): int
  {
    if x in order then var i :| 0 <= i < |order| && order[i] == x; i else -1
  }

  lemma OrderedIsAcyclic(batch: Batch, order: seq<Oid>)
    requires IsTopo(batch, order)
    ensures Acyclic(ParentIn(batch))
  {
    hide Acyclic;
    var edge := ParentIn(batch);
    var rank := (x: Oid) => IndexOf(order, x);
    forall c, p | edge(c, p) ensures rank(p) < rank(c) {
      assert c in AsSet(order) && p in AsSet(order);
      var i := IndexOf(order, c);
      assert p in order[..i];
      var j :| 0 <= j < i && order[..i][j] == p;
      assert order[j] == p;
    }
    RankedIsAcyclic(edge, rank);
  }

  lemma StuckIsCyclic(batch: Batch, order: seq<Oid>, degree: map<Oid, nat>)
    requires Queued(batch, order, [], degree) && AsSet(order) < batch.Keys
    ensures !Acyclic(ParentIn(batch))
  {
    hide Pending;
    hide Acyclic;
    var stuck := batch.Keys - AsSet(order);
    assert stuck != {} by {
      if stuck == {} {
        forall x | x in batch.Keys ensures x in AsSet(order) { assert x !in stuck; }
      }
    }
    var edge := ParentIn(batch);
    forall c | c in stuck ensures HasNext(edge, stuck, c) {
      assert degree[c] != 0;
      PendingZero(batch[c], batch.Keys, AsSet(order));
      var p :| p in batch[c] && p in batch.Keys && p !in AsSet(order);
      assert p in stuck && edge(c, p);
    }
    StuckHasCycle(edge, stuck);
  }
}
