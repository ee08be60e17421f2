/** Ordering one section of a pack so that no delta comes before its base. */
module SectionOrder {
  import opened Graphs
  import opened Bands
  import opened Objects
  import opened TopoOrder
  import opened Chains

  ghost predicate DistinctOids(section: seq<Entry>)
  {
    forall i, j :: 0 <= i < j < |section| ==> section[i].oid != section[j].oid
  }

  ghost predicate Indexes(section: seq<Entry>, at: map<Oid, nat>)
  {
    && (forall o :: o in at ==> at[o] < |section| && section[at[o]].oid == o)
    && (forall i :: 0 <= i < |section| ==> section[i].oid in at)
  }

  lemma IndexesAt(section: seq<Entry>, at: map<Oid, nat>, o: Oid)
    requires Indexes(section, at) && o in at
    ensures at[o] < |section| && section[at[o]].oid == o
  {
  }

  /** Where each object of the section sits. */
  method IndexByOid(section: seq<Entry>) returns (at: map<Oid, nat>)
    ensures Indexes(section, at)
  {
    at := map[];
    for i := 0 to |section|
      invariant forall o :: o in at ==> at[o] < i && section[at[o]].oid == o
      invariant forall k :: 0 <= k < i ==> section[k].oid in at
    {
      at := at[section[i].oid := i];
    }
  }

  /** Entry `i` deltas against entry `j` of the same section. */
  ghost function DeltasOn(section: seq<Entry>): (int, int) -> bool
  {
    (i, j) => 0 <= i < |section| && 0 <= j < |section| && section[i].base == Some(section[j].oid)
  }

  datatype Visit = Fresh | OnWalk | Emitted

  /** Indices below `n`, each once. */
  ghost predicate Permutes(emitted: seq<int>, n: nat)
  {
    Distinct(emitted) && forall i :: i in emitted <==> 0 <= i < n
  }

  /** Each entry follows its in-section base, unless that base edge closes a cycle. */
  ghost predicate BasesFirst(section: seq<Entry>, emitted: seq<int>)
  {
    forall k, j :: 0 <= k < |emitted| && DeltasOn(section)(emitted[k], j) ==>
      j in emitted[..k] || Reaches(DeltasOn(section), {j}, emitted[k])
  }

  /** The walk's stack is one chain of bases, and what is neither fresh nor
      stacked has been emitted. */
  ghost predicate Walking(section: seq<Entry>, state: seq<Visit>, stack: seq<int>, emitted: seq<int>)
  {
    && |state| == |section|
    && Distinct(stack + emitted)
    && (forall i :: 0 <= i < |section| ==> (state[i] != Fresh <==> i in stack || i in emitted))
    && (forall i :: i in stack || i in emitted ==> 0 <= i < |section|)
    && (forall k :: 0 <= k < |stack| - 1 ==> DeltasOn(section)(stack[k], stack[k + 1]))
    && BasesFirst(section, emitted)
  }

  lemma PushWalks(section: seq<Entry>, state: seq<Visit>, stack: seq<int>, emitted: seq<int>, base: nat)
    requires Walking(section, state, stack, emitted) && base < |section| && state[base] == Fresh
    requires stack != [] ==> DeltasOn(section)(stack[|stack| - 1], base)
    ensures Walking(section, state[base := OnWalk], stack + [base], emitted)
  {
    var next := stack + [base];
    forall i, j | 0 <= i < j < |next + emitted| ensures (next + emitted)[i] != (next + emitted)[j] {
      var all := stack + emitted;
      var i', j' := if i < |stack| then i else i - 1, if j < |stack| then j else j - 1;
      assert i < |stack| ==> (next + emitted)[i] == all[i] && all[i] in all;
      assert i > |stack| ==> (next + emitted)[i] == all[i - 1] && all[i - 1] in all;
      assert j < |stack| ==> (next + emitted)[j] == all[j];
      assert j > |stack| ==> (next + emitted)[j] == all[j - 1] && all[j - 1] in all;
    }
  }

  /** A chain of bases from a stacked entry reaches everything stacked above it. */
  lemma ChainReaches(section: seq<Entry>, stack: seq<int>, m: nat)
    requires m < |stack| && forall k :: 0 <= k < |stack| - 1 ==> DeltasOn(section)(stack[k], stack[k + 1])
    ensures Reaches(DeltasOn(section), {stack[m]}, stack[|stack| - 1])
  {
    var p := stack[m..];
    forall i | 0 <= i < |p| - 1 ensures DeltasOn(section)(p[i], p[i + 1]) {
      assert DeltasOn(section)(stack[m + i], stack[m + i + 1]);
    }
    assert Leads(DeltasOn(section), {stack[m]}, p, stack[|stack| - 1]);
  }

  lemma PopWalks(section: seq<Entry>, state: seq<Visit>, stack: seq<int>, emitted: seq<int>, top: nat)
    requires Walking(section, state, stack, emitted)
    requires stack != [] && stack[|stack| - 1] == top && top < |section|
    requires forall j :: DeltasOn(section)(top, j) ==> state[j] != Fresh
    ensures Walking(section, state[top := Emitted], stack[..|stack| - 1], emitted + [top])
  {
    hide Reaches;
    var rest, out := stack[..|stack| - 1], emitted + [top];
    assert stack == rest + [top] && top in stack;
    var was, now := stack + emitted, rest + out;
    forall i, j | 0 <= i < j < |now| ensures now[i] != now[j] {
      assert i < |rest| ==> now[i] == was[i];
      assert |rest| <= i < |now| - 1 ==> now[i] == was[i + 1];
      assert j < |rest| ==> now[j] == was[j];
      assert |rest| <= j < |now| - 1 ==> now[j] == was[j + 1];
      assert now[|now| - 1] == top == was[|rest|];
    }
    forall i | 0 <= i < |section| ensures state[top := Emitted][i] != Fresh <==> i in rest || i in out { }
    forall k, j | 0 <= k < |out| && DeltasOn(section)(out[k], j)
      ensures j in out[..k] || Reaches(DeltasOn(section), {j}, out[k])
    {
      if k < |emitted| {
        assert out[..k] == emitted[..k];
      } else {
        assert out[..k] == emitted;
        if j !in emitted {
          var m :| 0 <= m < |stack| && stack[m] == j;
          ChainReaches(section, stack, m);
        }
      }
    }
    assert BasesFirst(section, out);
    assert Distinct(rest + out);
    forall i | i in rest || i in out ensures 0 <= i < |section| {
      if i in rest { assert i in stack; }
    }
    assert forall k :: 0 <= k < |rest| - 1 ==> DeltasOn(section)(rest[k], rest[k + 1]);
  }

  /** One kind's entries, bases first, walked iteratively. */
  method Order(section: seq<Entry>) returns (ordered: seq<Entry>, ghost emitted: seq<int>)
    requires DistinctOids(section)
    ensures Permutes(emitted, |section|) && |ordered| == |section|
    ensures forall k :: 0 <= k < |ordered| && k < |emitted| && 0 <= emitted[k] < |section| ==>
      ordered[k] == section[emitted[k]]
    ensures |emitted| == |section| && BasesFirst(section, emitted)
    ensures InOrder(section) ==> ordered == section
  {
    hide Reaches;
    var at := IndexByOid(section);
    var state := seq(|section|, _ => Fresh);
    ordered, emitted := [], [];
    var start := 0;
    while start < |section|
      invariant 0 <= start <= |section|
      invariant Walking(section, state, [], emitted)
      invariant forall i :: 0 <= i < start ==> state[i] != Fresh
      invariant Lists(section, ordered, emitted)
      invariant InOrder(section) ==> ordered == section[..start] && forall i :: i in emitted ==> i < start
    {
      if state[start] == Fresh {
        PushWalks(section, state, [], emitted, start);
        assert InOrder(section) ==> Based(section, state[start := OnWalk], start);
        assert section[..start + 1] == section[..start] + [section[start]];
        assert [] + [start] == [start];
        state, ordered, emitted := Unwind(section, at, state[start := OnWalk], start, ordered, emitted);
      } else {
        // An emitted slot is marked again; only freshness is ever asked of it.
        MarkAgain(section, state, emitted, start);
        state := state[start := OnWalk];
      }
      start := start + 1;
    }
    AllEmitted(section, state, emitted);
  }

  /** No entry comes before its base. */
  ghost predicate InOrder(section: seq<Entry>)
  {
    forall i, j :: 0 <= i <= j < |section| ==> section[i].base != Some(section[j].oid)
  }

  ghost predicate Lists(section: seq<Entry>, ordered: seq<Entry>, emitted: seq<int>)
  {
    |ordered| == |emitted| &&
    forall k :: 0 <= k < |emitted| ==> 0 <= emitted[k] < |section| && ordered[k] == section[emitted[k]]
  }

  lemma MarkAgain(section: seq<Entry>, state: seq<Visit>, emitted: seq<int>, at: nat)
    requires Walking(section, state, [], emitted) && at < |section| && state[at] != Fresh
    ensures Walking(section, state[at := OnWalk], [], emitted)
  {
  }

  lemma AllEmitted(section: seq<Entry>, state: seq<Visit>, emitted: seq<int>)
    requires Walking(section, state, [], emitted)
    requires forall i :: 0 <= i < |section| ==> state[i] != Fresh
    ensures Permutes(emitted, |section|) && |emitted| == |section|
  {
    assert [] + emitted == emitted;
    UnrepeatedSize(emitted);
    assert AsSet(emitted) == Below(|section|);
  }

  /** The indices below `n`. */
  ghost function Below(n: nat): (s: set<int>)
    ensures |s| == n
    ensures forall i :: i in s <==> 0 <= i < n
  {
    if n == 0 then {} else Below(n - 1) + {n - 1}
  }

  /** The entry's base, if the section has it, has been visited. */
  ghost predicate Based(section: seq<Entry>, state: seq<Visit>, i: nat)
    requires i < |section| == |state|
  {
    forall j :: 0 <= j < |section| && section[i].base == Some(section[j].oid) ==> state[j] != Fresh
  }

  /** Follows one entry's chain of unvisited bases, then emits it deepest first. */
  method Unwind(section: seq<Entry>, at: map<Oid, nat>, state: seq<Visit>, start: nat,
                ordered: seq<Entry>, ghost emitted: seq<int>)
    returns (state': seq<Visit>, ordered': seq<Entry>, ghost emitted': seq<int>)
    requires DistinctOids(section) && start < |section|
    requires Indexes(section, at)
    requires Walking(section, state, [start], emitted) && Lists(section, ordered, emitted)
    ensures Walking(section, state', [], emitted') && Lists(section, ordered', emitted')
    ensures forall i :: 0 <= i < |section| && state[i] != Fresh ==> state'[i] != Fresh
    ensures Based(section, state, start) ==> ordered' == ordered + [section[start]] && emitted' == emitted + [start]
  {
    hide Reaches;
    var stack := [start];
    state', ordered', emitted' := state, ordered, emitted;
    while stack != []
      invariant Walking(section, state', stack, emitted')
      invariant Lists(section, ordered', emitted')
      invariant forall i :: 0 <= i < |section| && state[i] != Fresh ==> state'[i] != Fresh
      invariant Based(section, state, start) && stack != [] ==>
        stack == [start] && state' == state && ordered' == ordered && emitted' == emitted
      invariant Based(section, state, start) && stack == [] ==>
        ordered' == ordered + [section[start]] && emitted' == emitted + [start]
      decreases FreshOf(state'), |stack|
    {
      var top := stack[|stack| - 1];
      assert top in stack;
      var base := section[top].base;
      var next := if base.Some? && base.value in at then Some(at[base.value]) else None;
      if next.Some? {
        IndexesAt(section, at, base.value);
      }
      if next.Some? && state'[next.value] == Fresh {
        var b := next.value;
        assert section[b].oid == base.value;
        FreshFalls(state', b);
        PushWalks(section, state', stack, emitted', b);
        state', stack := state'[b := OnWalk], stack + [b];
      } else {
        forall j | DeltasOn(section)(top, j) ensures state'[j] != Fresh {
          assert section[j].oid in at;
          assert at[section[j].oid] == j;
        }
        PopWalks(section, state', stack, emitted', top);
        FreshStays(state', top);
        ordered', emitted' := ordered' + [section[top]], emitted' + [top];
        state', stack := state'[top := Emitted], stack[..|stack| - 1];
      }
    }
  }

  ghost function FreshOf(state: seq<Visit>): set<int>
  {
    set i | 0 <= i < |state| && state[i] == Fresh
  }

  lemma FreshFalls(state: seq<Visit>, at: nat)
    requires at < |state| && state[at] == Fresh
    ensures FreshOf(state[at := OnWalk]) < FreshOf(state)
  {
    assert at in FreshOf(state) && at !in FreshOf(state[at := OnWalk]);
  }

  lemma FreshStays(state: seq<Visit>, at: nat)
    requires at < |state| && state[at] != Fresh
    ensures FreshOf(state[at := Emitted]) == FreshOf(state)
  {
  }
}
