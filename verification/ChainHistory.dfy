/** Pushes one after another: what bounding each of them does to the deltas stored
    by all.

    One push is safe given that no stored base was first packed after what it
    serves. Here that is shown to hold again after the push, so that it holds along
    every run of pushes, as long as each numbers its commits upwards along its walk
    and above everything stored; and not otherwise.
*/
module ChainHistory {
  import opened Graphs
  import opened Bands
  import opened Objects
  import opened TopoOrder
  import opened Chains

  /** What is stored: the lowest-numbered pack of each object, and every delta, object to base. */
  datatype Store = Store(firstPack: map<Oid, int>, deltas: set<(Oid, Oid)>)

  ghost function Stored(s: Store): (Oid, Oid) -> bool
  {
    (o, b) => (o, b) in s.deltas
  }

  /** No stored base was first packed after what it serves. */
  ghost predicate Ordered(s: Store)
  {
    forall o, b :: Stored(s)(o, b) ==> o in s.firstPack && b in s.firstPack && s.firstPack[b] <= s.firstPack[o]
  }

  /** First packs once the entries of `walk` are stored, each in the pack numbered beside it. */
  ghost function Packed(firstPack: map<Oid, int>, walk: seq<Entry>, nums: seq<int>): map<Oid, int>
    requires |nums| == |walk|
  {
    if walk == [] then firstPack
    else
      var n, o := |walk| - 1, walk[|walk| - 1].oid;
      var was := Packed(firstPack, walk[..n], nums[..n]);
      if o in was && was[o] <= nums[n] then was else was[o := nums[n]]
  }

  ghost function Deltas(walk: seq<Entry>): set<(Oid, Oid)>
  {
    set i | 0 <= i < |walk| && walk[i].base.Some? :: (walk[i].oid, walk[i].base.value)
  }

  /** The number of the pack of each entry of `Flat(packs, order)`. */
  ghost function Numbers(packs: map<Oid, seq<Entry>>, order: seq<Oid>, number: Oid -> int): (nums: seq<int>)
    ensures |nums| == |Flat(packs, order)|
  {
    if order == [] then []
    else
      var last := order[|order| - 1];
      Numbers(packs, order[..|order| - 1], number) + seq(|EntriesOf(packs, last)|, _ => number(last))
  }

  /** One push: its packs bounded against what is stored, then stored under its commits' numbers. */
  ghost predicate Pushes(s: Store, s': Store, packs: map<Oid, seq<Entry>>, left: map<Oid, seq<Entry>>, parents: Batch,
                         order: seq<Oid>, depths: map<Oid, nat>, number: Oid -> int)
  {
    && IsTopo(parents, order) && depths.Keys <= s.firstPack.Keys
    && Flat(left, order) == BoundedWalk(Flat(packs, order), Ask(packs, s.firstPack, depths))
    && s' == Store(Packed(s.firstPack, Flat(left, order), Numbers(left, order, number)),
                   s.deltas + Deltas(Flat(left, order)))
  }

  /** Numbers never fall along the order, and all are above what is stored. */
  ghost predicate Climbs(number: Oid -> int, order: seq<Oid>, firstPack: map<Oid, int>)
  {
    && (forall i, j :: 0 <= i < j < |order| ==> number(order[i]) <= number(order[j]))
    && (forall i, o :: 0 <= i < |order| && o in firstPack ==> firstPack[o] < number(order[i]))
  }

  ghost predicate Rising(nums: seq<int>)
  {
    forall i, j :: 0 <= i < j < |nums| ==> nums[i] <= nums[j]
  }

  ghost predicate AllAbove(nums: seq<int>, firstPack: map<Oid, int>)
  {
    forall i, o :: 0 <= i < |nums| && o in firstPack ==> firstPack[o] < nums[i]
  }

  lemma {:induction false} NumbersOf(packs: map<Oid, seq<Entry>>, order: seq<Oid>, number: Oid -> int, i: nat)
    requires i < |Numbers(packs, order, number)|
    ensures exists k :: 0 <= k < |order| && Numbers(packs, order, number)[i] == number(order[k])
  {
    var n := |order| - 1;
    if i < |Numbers(packs, order[..n], number)| {
      NumbersOf(packs, order[..n], number, i);
      var k :| 0 <= k < n && Numbers(packs, order[..n], number)[i] == number(order[..n][k]);
      assert order[..n][k] == order[k];
    } else {
      assert Numbers(packs, order, number)[i] == number(order[n]);
    }
  }

  lemma {:induction false} NumbersRise(packs: map<Oid, seq<Entry>>, order: seq<Oid>, number: Oid -> int,
                                       firstPack: map<Oid, int>)
    requires Climbs(number, order, firstPack)
    ensures Rising(Numbers(packs, order, number)) && AllAbove(Numbers(packs, order, number), firstPack)
  {
    var nums := Numbers(packs, order, number);
    forall i, o | 0 <= i < |nums| && o in firstPack ensures firstPack[o] < nums[i] {
      NumbersOf(packs, order, number, i);
    }
    if order != [] {
      var n := |order| - 1;
      var front := Numbers(packs, order[..n], number);
      NumbersRise(packs, order[..n], number, firstPack);
      forall i, j | 0 <= i < j < |nums| ensures nums[i] <= nums[j] {
        if i < |front| <= j {
          NumbersOf(packs, order[..n], number, i);
          var k :| 0 <= k < n && front[i] == number(order[..n][k]);
          assert order[..n][k] == order[k] && nums[i] == front[i];
        } else if j < |front| {
          assert nums[i] == front[i] && nums[j] == front[j];
        }
      }
    }
  }

  /** With rising numbers above what is stored, an object keeps the pack it had, and
      otherwise gets that of its first entry. */
  lemma {:induction false} PackedIs(firstPack: map<Oid, int>, walk: seq<Entry>, nums: seq<int>, o: Oid)
    requires |nums| == |walk| && Rising(nums) && AllAbove(nums, firstPack)
    ensures var after := Packed(firstPack, walk, nums);
      && (o in after <==> o in firstPack || Meets(walk, o))
      && (o in firstPack ==> after[o] == firstPack[o])
      && (o !in firstPack && Meets(walk, o) ==> o in after && after[o] == nums[FirstOf(walk, o)])
  {
    if walk != [] {
      var n := |walk| - 1;
      var front := walk[..n];
      PackedIs(firstPack, front, nums[..n], o);
      if Meets(front, o) {
        FirstOfPrefix(walk, n, o);
        assert nums[..n][FirstOf(front, o)] == nums[FirstOf(walk, o)] <= nums[n];
      } else if walk[n].oid == o {
        assert forall j :: 0 <= j < n ==> front[j] == walk[j];
        assert Meets(walk, o) && FirstOf(walk, o) == n;
      } else {
        assert forall j :: 0 <= j < n ==> front[j] == walk[j];
      }
    }
  }

  /** A surviving base was first packed no later than what it serves, once the push is stored. */
  lemma SurvivorIsOrdered(walk: seq<Entry>, a: Answers, firstPack: map<Oid, int>, nums: seq<int>, i: nat)
    requires Truthful(walk, a, firstPack) && |nums| == |walk| && Rising(nums) && AllAbove(nums, firstPack)
    requires i < |walk| && BoundedWalk(walk, a)[i].base.Some?
    ensures var left := BoundedWalk(walk, a);
      var after, o, b := Packed(firstPack, left, nums), left[i].oid, left[i].base.value;
      o in after && b in after && after[b] <= after[o]
  {
    hide After, BoundedWalk, Packed, Hops;
    var left := BoundedWalk(walk, a);
    var o, b := left[i].oid, left[i].base.value;
    CutDropsClientBytes(walk, a, i);
    ChainsAreBounded(walk, a, i);
    assert Meets(left, o);
    assert Meets(left, b) || b in firstPack by {
      if Meets(left[..i], b) {
        FirstOfPrefix(left, i, b);
      }
    }
    PackedIs(firstPack, left, nums, o);
    PackedIs(firstPack, left, nums, b);
    var top := AllBelow(firstPack);
    SurvivorPrecedes(walk, a, firstPack, top, i);
    TrackAll(walk, a);
    if o !in firstPack && b !in firstPack {
      RankIsTurn(walk, a, o, b);
    }
  }

  /** A push whose numbers climb, made on a store in order and without a cycle, leaves it so. */
  lemma PushKeepsOrder(s: Store, s': Store, packs: map<Oid, seq<Entry>>, left: map<Oid, seq<Entry>>, parents: Batch,
                       order: seq<Oid>, depths: map<Oid, nat>, number: Oid -> int)
    requires Ordered(s) && Acyclic(Stored(s))
    requires Pushes(s, s', packs, left, parents, order, depths, number) && Climbs(number, order, s.firstPack)
    ensures Ordered(s') && Acyclic(Stored(s'))
  {
    hide Acyclic, Flat, Numbers, Packed, BoundedWalk, Ask, Truthful, IsTopo;
    var walk, a, nums := Flat(packs, order), Ask(packs, s.firstPack, depths), Numbers(left, order, number);
    var flat := Flat(left, order);
    AskIsTruthful(packs, order, s.firstPack, depths);
    NumbersRise(left, order, number, s.firstPack);
    DeltasStayAcyclic(walk, a, s.firstPack, Stored(s));
    FewerEdges(Either(Stored(s), BaseEdge(flat)), Stored(s'));
    forall o, b | Stored(s')(o, b)
      ensures o in s'.firstPack && b in s'.firstPack && s'.firstPack[b] <= s'.firstPack[o]
    {
      if Stored(s)(o, b) {
        PackedIs(s.firstPack, flat, nums, o);
        PackedIs(s.firstPack, flat, nums, b);
      } else {
        var i :| 0 <= i < |flat| && flat[i].base.Some? && (o, b) == (flat[i].oid, flat[i].base.value);
        SurvivorIsOrdered(walk, a, s.firstPack, nums, i);
      }
    }
  }

  // ------------------------------------------------------------------- runs

  ghost predicate ClimbingPush(s: Store, s': Store)
  {
    exists packs, left, parents, order, depths, number ::
      Pushes(s, s', packs, left, parents, order, depths, number) && Climbs(number, order, s.firstPack)
  }

  /** Pushes one after another, from nothing. */
  ghost predicate History(run: seq<Store>)
  {
    && |run| > 0 && run[0] == Store(map[], {})
    && forall i :: 0 <= i < |run| - 1 ==> ClimbingPush(run[i], run[i + 1])
  }

  /** Along every run of such pushes the deltas stored hold no cycle, and no base is
      first packed after what it serves. */
  lemma {:induction false} HistoryStaysAcyclic(run: seq<Store>, i: nat)
    requires History(run) && i < |run|
    ensures Ordered(run[i]) && Acyclic(Stored(run[i]))
  {
    hide Pushes, Climbs, Acyclic, Ordered;
    if i == 0 {
      NoDeltas(run[0]);
    } else {
      HistoryStaysAcyclic(run, i - 1);
      assert ClimbingPush(run[i - 1], run[i - 1 + 1]);
      var packs, left, parents, order, depths, number :|
        Pushes(run[i - 1], run[i], packs, left, parents, order, depths, number)
        && Climbs(number, order, run[i - 1].firstPack);
      PushKeepsOrder(run[i - 1], run[i], packs, left, parents, order, depths, number);
    }
  }

  // ------------------------------------------------------ where order is lost

  const BASE: Oid := 100
  const OBJECT: Oid := 101

  /** A store of one object, first packed under commit number 8. */
  ghost function Before(): Store
  {
    Store(map[BASE := 8], {})
  }

  /** A new commit stores `OBJECT` against `BASE`; another, that kept the number 3 of
      a push that died, stores it whole. */
  ghost function Retried(): map<Oid, seq<Entry>>
  {
    map[1 := [Entry(OBJECT, Blob, Some(BASE), Encoded)], 2 := [Entry(OBJECT, Blob, None, Encoded)]]
  }

  ghost function Between(): Store
  {
    Store(map[BASE := 8, OBJECT := 3], {(OBJECT, BASE)})
  }

  /** A later commit stores `BASE` again, against `OBJECT`. */
  ghost function Reverting(): map<Oid, seq<Entry>>
  {
    map[3 := [Entry(BASE, Blob, Some(OBJECT), Encoded)]]
  }

  ghost function Looped(): Store
  {
    Store(map[BASE := 8, OBJECT := 3], {(OBJECT, BASE), (BASE, OBJECT)})
  }

  ghost function NumberOf(c: Oid): int
  {
    if c == 1 then 10 else if c == 2 then 3 else 11
  }

  /** A push in which one commit keeps a low number loses the order, though no
      cycle; and then one whose numbers climb closes a cycle. */
  lemma LowNumberLosesOrder()
    ensures Ordered(Before()) && Acyclic(Stored(Before()))
    ensures Pushes(Before(), Between(), Retried(), Retried(), map[1 := [], 2 := []], [1, 2], map[BASE := 0], NumberOf)
    ensures !Climbs(NumberOf, [1, 2], Before().firstPack) && !Ordered(Between()) && Acyclic(Stored(Between()))
    ensures Pushes(Between(), Looped(), Reverting(), Reverting(), map[3 := []], [3], map[OBJECT := 1], NumberOf)
    ensures Climbs(NumberOf, [3], Between().firstPack) && !Acyclic(Stored(Looped()))
  {
    hide Pushes, Climbs, Acyclic;
    NoDeltas(Before());
    RetriedPush();
    RetriedFalls();
    RevertingPush();
    RevertingClimbs();
  }

  lemma RetriedFalls()
    ensures !Climbs(NumberOf, [1, 2], Before().firstPack) && !Ordered(Between()) && Acyclic(Stored(Between()))
  {
    hide Acyclic;
    assert NumberOf([1, 2][0]) > NumberOf([1, 2][1]);
    assert Stored(Between())(OBJECT, BASE);
    RankedIsAcyclic(Stored(Between()), o => o);
  }

  lemma RevertingClimbs()
    ensures Climbs(NumberOf, [3], Between().firstPack) && !Acyclic(Stored(Looped()))
  {
    assert IsCycle(Stored(Looped()), [OBJECT, BASE, OBJECT]);
  }

  lemma RetriedPush()
    ensures Pushes(Before(), Between(), Retried(), Retried(), map[1 := [], 2 := []], [1, 2], map[BASE := 0], NumberOf)
  {
    hide Flat, Numbers, BoundedWalk, Packed, Ask;
    RetriedWalk();
    RetriedPacked();
    assert AsSet([1, 2]) == {1, 2} by { assert [1, 2][0] == 1 && [1, 2][1] == 2; }
  }

  /** The entries of that push, in the order they are walked. */
  ghost function RetriedEntries(): seq<Entry>
  {
    [Entry(OBJECT, Blob, Some(BASE), Encoded), Entry(OBJECT, Blob, None, Encoded)]
  }

  lemma RetriedWalk()
    ensures Flat(Retried(), [1, 2]) == RetriedEntries() && Numbers(Retried(), [1, 2], NumberOf) == [10, 3]
    ensures BoundedWalk(RetriedEntries(), Ask(Retried(), Before().firstPack, map[BASE := 0])) == RetriedEntries()
  {
    hide Packed;
    var packs, walk := Retried(), RetriedEntries();
    assert [1, 2][..1] == [1] && [1][..0] == [];
    assert Flat(packs, [1]) == [walk[0]] && Numbers(packs, [1], NumberOf) == [10];
    RetriedBounds(Ask(packs, Before().firstPack, map[BASE := 0]));
  }

  lemma RetriedBounds(a: Answers)
    requires a == Ask(Retried(), Before().firstPack, map[BASE := 0])
    ensures BoundedWalk(RetriedEntries(), a) == RetriedEntries()
  {
    var packs, walk := Retried(), RetriedEntries();
    assert OBJECT !in a.storedAt;
    assert BASE in a.olderDepths && a.olderDepths[BASE] == 0 by {
      assert Retried()[1][0] == walk[0];
      assert BASE in OlderIn(packs);
    }
    assert walk[..1] == [walk[0]] && [walk[0]][..0] == [];
    assert BoundedWalk([walk[0]], a) == [walk[0]];
  }

  lemma RetriedPacked()
    ensures Packed(Before().firstPack, RetriedEntries(), [10, 3]) == Between().firstPack
    ensures Deltas(RetriedEntries()) == {(OBJECT, BASE)}
  {
    var walk := RetriedEntries();
    assert walk[..1] == [walk[0]] && [walk[0]][..0] == [] && [10, 3][..1] == [10] && [10][..0] == [];
    assert Packed(Before().firstPack, [walk[0]], [10]) == map[BASE := 8, OBJECT := 10];
    assert walk[0].base.Some?;
  }

  lemma RevertingPush()
    ensures Pushes(Between(), Looped(), Reverting(), Reverting(), map[3 := []], [3], map[OBJECT := 1], NumberOf)
  {
    hide Flat, Numbers, BoundedWalk, Packed, Ask;
    RevertingWalk();
    RevertingPacked();
    assert AsSet([3]) == {3} by { assert [3][0] == 3; }
  }

  ghost function RevertingEntries(): seq<Entry>
  {
    [Entry(BASE, Blob, Some(OBJECT), Encoded)]
  }

  lemma RevertingWalk()
    ensures Flat(Reverting(), [3]) == RevertingEntries() && Numbers(Reverting(), [3], NumberOf) == [11]
    ensures var a := Ask(Reverting(), Between().firstPack, map[OBJECT := 1]);
      BoundedWalk(RevertingEntries(), a) == RevertingEntries()
  {
    hide Packed, Ask, BoundedWalk;
    assert [3][..0] == [];
    RevertingAnswers(Ask(Reverting(), Between().firstPack, map[OBJECT := 1]));
    RevertingBounds(Ask(Reverting(), Between().firstPack, map[OBJECT := 1]));
  }

  ghost predicate Answered(a: Answers)
  {
    && BASE in a.storedAt && a.storedAt[BASE] == 8 && OBJECT in a.storedAt && a.storedAt[OBJECT] == 3
    && OBJECT in a.olderDepths && a.olderDepths[OBJECT] == 1
  }

  lemma RevertingAnswers(a: Answers)
    requires a == Ask(Reverting(), Between().firstPack, map[OBJECT := 1])
    ensures Answered(a)
  {
    var packs := Reverting();
    assert packs[3][0] == RevertingEntries()[0];
    assert OBJECT in OlderIn(packs);
    assert BASE in KnownIn(packs) && OBJECT in KnownIn(packs);
  }

  lemma RevertingBounds(a: Answers)
    requires Answered(a)
    ensures BoundedWalk(RevertingEntries(), a) == RevertingEntries()
  {
    var walk := RevertingEntries();
    assert walk[..0] == [];
    assert Bounded(walk[0], a, START) == walk[0];
  }

  lemma RevertingPacked()
    ensures Packed(Between().firstPack, RevertingEntries(), [11]) == Looped().firstPack
    ensures Between().deltas + Deltas(RevertingEntries()) == Looped().deltas
  {
    var walk := RevertingEntries();
    assert walk[..0] == [] && [11][..0] == [];
    assert walk[0].base.Some?;
    assert Deltas(walk) == {(BASE, OBJECT)};
  }

  lemma NoDeltas(s: Store)
    requires s.deltas == {}
    ensures Ordered(s) && Acyclic(Stored(s))
  {
    forall p ensures !IsCycle(Stored(s), p) {
      assert |p| >= 2 ==> !Stored(s)(p[0], p[1]);
    }
  }
}
