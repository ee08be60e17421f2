/** Deciding, for every planned entry, whether the client's own bytes can be
    stored as they are.
*/
module Classify {
  import opened Graphs
  import opened Bands
  import opened Objects
  import opened TopoOrder
  import opened TreeDiff
  import opened Chains
  import opened Planning
  import Sections = SectionOrder
  import Proofs = AncestryProof

  /** Where an object arrived, and what the client encoded it against. */
  datatype Sent = Sent(at: WireRef, base: Option<Oid>)

  function HeldIn(homes: map<Oid, seq<Oid>>, oid: Oid): seq<Oid>
  {
    if oid in homes then homes[oid] else []
  }

  /** Exactly the commits whose planned packs hold each object. */
  ghost predicate HomesOk(packs: map<Oid, seq<Entry>>, homes: map<Oid, seq<Oid>>)
  {
    forall oid, c {:trigger Houses(packs, c, oid)} :: c in HeldIn(homes, oid) <==> Houses(packs, c, oid)
  }

  ghost predicate Houses(packs: map<Oid, seq<Entry>>, c: Oid, oid: Oid)
  {
    c in packs && Packs(packs[c], oid)
  }

  /** The commits to try for an object: those planned to hold it, then the stored one. */
  function HomesOf(homes: map<Oid, seq<Oid>>, older: map<Oid, Oid>, oid: Oid): seq<Oid>
  {
    HeldIn(homes, oid) + if oid in older then [older[oid]] else []
  }

  /** A pack's readers find its own entries, and those of packs proven to be ancestors'. */
  ghost predicate Proven(proven: set<(Oid, Oid)>, target: Oid, home: Oid)
  {
    target == home || (target, home) in proven
  }

  ghost predicate AnyProven(proven: set<(Oid, Oid)>, target: Oid, homes: seq<Oid>)
  {
    exists k :: 0 <= k < |homes| && Proven(proven, target, homes[k])
  }

  /** A commit to read `base` from, planned to hold it or holding it already, is `c`
      itself or proven to be its ancestor. */
  ghost predicate Served(packs: map<Oid, seq<Entry>>, older: map<Oid, Oid>, proven: set<(Oid, Oid)>, c: Oid, base: Oid)
  {
    exists home :: (Houses(packs, home, base) || (base in older && older[base] == home)) && Proven(proven, c, home)
  }

  /** The planned object in the client's encoding, its base and its bytes. */
  ghost predicate FromClient(sent: map<Oid, Sent>, planned: Entry, e: Entry)
  {
    && planned.oid in sent && e.oid == planned.oid && e.kind == planned.kind
    && e.base == sent[planned.oid].base && e.source == Wire(sent[planned.oid].at)
  }

  /** What becomes of a planned entry: an object the client sent whole is taken from
      the client, one it sent as a delta is exactly if its base is served, and any
      other entry stays as planned. */
  ghost predicate Decided(packs: map<Oid, seq<Entry>>, sent: map<Oid, Sent>, older: map<Oid, Oid>,
                          proven: set<(Oid, Oid)>, c: Oid, planned: Entry, e: Entry)
  {
    && (planned.oid !in sent ==> e == planned)
    && (planned.oid in sent && sent[planned.oid].base.None? ==> FromClient(sent, planned, e))
    && (planned.oid in sent && sent[planned.oid].base.Some? ==>
          var base := sent[planned.oid].base.value;
          && (Served(packs, older, proven, c, base) ==> FromClient(sent, planned, e))
          && (!Served(packs, older, proven, c, base) ==> e == planned))
  }

  lemma ServedIffProven(packs: map<Oid, seq<Entry>>, homes: map<Oid, seq<Oid>>, older: map<Oid, Oid>,
                        proven: set<(Oid, Oid)>, c: Oid, base: Oid)
    requires HomesOk(packs, homes)
    ensures Served(packs, older, proven, c, base) <==> AnyProven(proven, c, HomesOf(homes, older, base))
  {
    var all := HomesOf(homes, older, base);
    forall home ensures home in all <==> Houses(packs, home, base) || (base in older && older[base] == home) {
      assert home in all <==> home in HeldIn(homes, base) || (base in older && older[base] == home);
    }
    if Served(packs, older, proven, c, base) {
      var home :| (Houses(packs, home, base) || (base in older && older[base] == home)) && Proven(proven, c, home);
      var k :| 0 <= k < |all| && all[k] == home;
    }
    if AnyProven(proven, c, all) {
      var k :| 0 <= k < |all| && Proven(proven, c, all[k]);
      assert all[k] in all;
    }
  }

  // ------------------------------------------------------------ the methods

  /** Turns packs round: from each object to the commits planned to hold it. */
  method Homes(packs: map<Oid, seq<Entry>>) returns (homes: map<Oid, seq<Oid>>)
    ensures HomesOk(packs, homes)
  {
    homes := map[];
    var left := packs.Keys;
    while left != {}
      invariant left <= packs.Keys
      invariant forall oid, c :: c in HeldIn(homes, oid) <==> c !in left && Houses(packs, c, oid)
      decreases |left|
    {
      var c := Pick(left);
      var was := homes;
      homes := HomesWith(homes, c, packs[c]);
      forall oid, d ensures d in HeldIn(homes, oid) <==> d !in left - {c} && Houses(packs, d, oid) {
        assert d in HeldIn(homes, oid) <==> d in HeldIn(was, oid) || (d == c && Packs(packs[c], oid));
        assert d in HeldIn(was, oid) <==> d !in left && Houses(packs, d, oid);
      }
      left := left - {c};
    }
  }

  method HomesWith(was: map<Oid, seq<Oid>>, c: Oid, entries: seq<Entry>) returns (homes: map<Oid, seq<Oid>>)
    ensures forall oid, d :: d in HeldIn(homes, oid) <==> d in HeldIn(was, oid) || (d == c && Packs(entries, oid))
  {
    homes := was;
    var i := 0;
    while i < |entries|
      invariant i <= |entries|
      invariant forall oid, d ::
        d in HeldIn(homes, oid) <==> d in HeldIn(was, oid) || (d == c && Packs(entries[..i], oid))
    {
      var before := homes;
      assert entries[..i + 1] == entries[..i] + [entries[i]];
      homes := homes[entries[i].oid := HeldIn(homes, entries[i].oid) + [c]];
      forall oid ensures Packs(entries[..i + 1], oid) <==> Packs(entries[..i], oid) || oid == entries[i].oid {
        PacksMore(entries[..i], entries[i], oid);
      }
      assert forall oid, d ::
          d in HeldIn(homes, oid) <==> d in HeldIn(before, oid) || (d == c && oid == entries[i].oid);
      i := i + 1;
    }
    assert entries[..i] == entries;
  }

  lemma PacksMore(entries: seq<Entry>, e: Entry, oid: Oid)
    ensures Packs(entries + [e], oid) <==> Packs(entries, oid) || oid == e.oid
  {
    var more := entries + [e];
    if Packs(entries, oid) {
      var k :| 0 <= k < |entries| && entries[k].oid == oid;
      assert more[k].oid == oid;
    }
    assert more[|entries|].oid == e.oid;
  }

  method AnyHome(proven: set<(Oid, Oid)>, target: Oid, homes: seq<Oid>) returns (yes: bool)
    ensures yes <==> AnyProven(proven, target, homes)
  {
    var k := 0;
    while k < |homes|
      invariant k <= |homes| && forall j :: 0 <= j < k ==> !Proven(proven, target, homes[j])
    {
      if target == homes[k] || (target, homes[k]) in proven {
        return true;
      }
      k := k + 1;
    }
    yes := false;
  }

  /** One commit's entries, each decided. */
  method Judge(c: Oid, planned: seq<Entry>, sent: map<Oid, Sent>, homes: map<Oid, seq<Oid>>, older: map<Oid, Oid>,
               proven: set<(Oid, Oid)>, ghost packs: map<Oid, seq<Entry>>)
    returns (judged: seq<Entry>)
    requires HomesOk(packs, homes)
    ensures |judged| == |planned|
    ensures forall k :: 0 <= k < |planned| ==> Decided(packs, sent, older, proven, c, planned[k], judged[k])
  {
    hide HomesOk, Served, AnyProven;
    judged := [];
    var i := 0;
    while i < |planned|
      invariant i <= |planned| && |judged| == i
      invariant forall k :: 0 <= k < i ==> Decided(packs, sent, older, proven, c, planned[k], judged[k])
    {
      var e := planned[i];
      if e.oid in sent {
        var s := sent[e.oid];
        if s.base.None? {
          e := Entry(e.oid, e.kind, None, Wire(s.at));
        } else {
          var kept := AnyHome(proven, c, HomesOf(homes, older, s.base.value));
          ServedIffProven(packs, homes, older, proven, c, s.base.value);
          if kept {
            e := Entry(e.oid, e.kind, s.base, Wire(s.at));
          }
        }
      }
      judged := judged + [e];
      i := i + 1;
    }
  }

  /** The entries of one section, in their order. */
  function Section(entries: seq<Entry>, trees: bool): (s: seq<Entry>)
    ensures forall e :: e in s <==> e in entries && (e.kind == Kind.Tree) == trees
  {
    if entries == [] then []
    else
      var rest := Section(entries[1..], trees);
      assert entries == [entries[0]] + entries[1..];
      if (entries[0].kind == Kind.Tree) == trees then [entries[0]] + rest else rest
  }

  lemma {:induction false} SectionDistinct(entries: seq<Entry>, trees: bool)
    requires Sections.DistinctOids(entries)
    ensures Sections.DistinctOids(Section(entries, trees))
  {
    if entries != [] {
      SectionDistinct(entries[1..], trees);
      var rest := Section(entries[1..], trees);
      forall k | 0 <= k < |rest| ensures rest[k].oid != entries[0].oid {
        assert rest[k] in rest;
        var j :| 0 <= j < |entries[1..]| && entries[1..][j] == rest[k];
        assert entries[j + 1] == rest[k];
      }
    }
  }

  lemma {:induction false} SectionsSize(entries: seq<Entry>)
    ensures |Section(entries, true)| + |Section(entries, false)| == |entries|
  {
    if entries != [] {
      SectionsSize(entries[1..]);
    }
  }

  /** A delta and its base, in the same section of a pack. */
  ghost function DeltaEdge(entries: seq<Entry>): (Entry, Entry) -> bool
  {
    (e, f) => e in entries && f in entries && (e.kind == Kind.Tree) == (f.kind == Kind.Tree) && e.base == Some(f.oid)
  }

  /** Every entry stands after its base in the same section, unless the two lie on a cycle of deltas. */
  ghost predicate AfterBases(entries: seq<Entry>)
  {
    forall j, k :: 0 <= j < |entries| && 0 <= k < |entries| && DeltaEdge(entries)(entries[k], entries[j]) ==>
      j < k || Reaches(DeltaEdge(entries), {entries[j]}, entries[k])
  }

  /** The same entries, each once, trees first and bases first. */
  ghost predicate Orders(entries: seq<Entry>, ordered: seq<Entry>)
  {
    && |ordered| == |entries| && Sections.DistinctOids(ordered)
    && (forall e :: e in ordered <==> e in entries)
    && TreesFirst(ordered) && AfterBases(ordered)
  }

  /** One section as the section walk left it. */
  ghost predicate Walked(section: seq<Entry>, ordered: seq<Entry>, emitted: seq<int>)
  {
    && Sections.Permutes(emitted, |section|) && |ordered| == |section| == |emitted|
    && (forall k :: 0 <= k < |ordered| ==> 0 <= emitted[k] < |section| && ordered[k] == section[emitted[k]])
    && Sections.BasesFirst(section, emitted)
  }

  lemma WalkedBy(section: seq<Entry>, ordered: seq<Entry>, emitted: seq<int>)
    requires Sections.Permutes(emitted, |section|) && |ordered| == |section| == |emitted|
    requires forall k :: 0 <= k < |ordered| && k < |emitted| && 0 <= emitted[k] < |section| ==>
      ordered[k] == section[emitted[k]]
    requires Sections.BasesFirst(section, emitted)
    ensures Walked(section, ordered, emitted)
  {
    forall k | 0 <= k < |ordered| ensures 0 <= emitted[k] < |section| {
      assert emitted[k] in emitted;
    }
  }

  /** What closes a cycle of positions closes one of entries. */
  lemma CycleOfEntries(section: seq<Entry>, all: seq<Entry>, trees: bool, i: int, j: int)
    requires forall e :: e in section ==> e in all && (e.kind == Kind.Tree) == trees
    requires 0 <= i < |section| && 0 <= j < |section| && Reaches(Sections.DeltasOn(section), {i}, j)
    ensures Reaches(DeltaEdge(all), {section[i]}, section[j])
  {
    var p :| Leads(Sections.DeltasOn(section), {i}, p, j);
    forall k | 0 <= k < |p| ensures 0 <= p[k] < |section| {
      if k < |p| - 1 {
        assert Sections.DeltasOn(section)(p[k], p[k + 1]);
      }
    }
    var q := seq(|p|, k requires 0 <= k < |p| => section[p[k]]);
    forall k | 0 <= k < |q| - 1 ensures DeltaEdge(all)(q[k], q[k + 1]) {
      assert Sections.DeltasOn(section)(p[k], p[k + 1]);
      assert section[p[k]] in section && section[p[k + 1]] in section;
    }
    assert Leads(DeltaEdge(all), {section[i]}, q, section[j]);
  }

  /** Within one walked section a base stands first unless on a cycle. */
  lemma WalkedAfterBases(section: seq<Entry>, ordered: seq<Entry>, emitted: seq<int>, all: seq<Entry>, trees: bool,
                         j: nat, k: nat)
    requires Walked(section, ordered, emitted) && j < |ordered| && k < |ordered|
    requires forall e :: e in section ==> e in all && (e.kind == Kind.Tree) == trees
    requires ordered[k].base == Some(ordered[j].oid)
    ensures j < k || Reaches(DeltaEdge(all), {ordered[j]}, ordered[k])
  {
    hide Reaches;
    var from, to := emitted[k], emitted[j];
    assert Sections.DeltasOn(section)(from, to);
    if to in emitted[..k] {
      var m :| 0 <= m < k && emitted[m] == to;
      assert m == j;
    } else {
      CycleOfEntries(section, all, trees, to, from);
    }
  }

  lemma WalkedDistinct(section: seq<Entry>, ordered: seq<Entry>, emitted: seq<int>)
    requires Sections.DistinctOids(section) && Walked(section, ordered, emitted)
    ensures Sections.DistinctOids(ordered)
  {
    forall i, j | 0 <= i < j < |ordered| ensures ordered[i].oid != ordered[j].oid {
      assert emitted[i] != emitted[j];
    }
  }

  lemma SameOidSameEntry(entries: seq<Entry>, e: Entry, f: Entry)
    requires Sections.DistinctOids(entries) && e in entries && f in entries && e.oid == f.oid
    ensures e == f
  {
    var i :| 0 <= i < |entries| && entries[i] == e;
    var j :| 0 <= j < |entries| && entries[j] == f;
  }

  /** The two sections' entries, all trees and all not. */
  ghost predicate Halves(entries: seq<Entry>, a: seq<Entry>, b: seq<Entry>)
  {
    && |a| + |b| == |entries|
    && (forall e :: e in a <==> e in entries && e.kind == Kind.Tree)
    && (forall e :: e in b <==> e in entries && e.kind != Kind.Tree)
  }

  lemma HalvesKinds(entries: seq<Entry>, a: seq<Entry>, b: seq<Entry>)
    requires Halves(entries, a, b)
    ensures forall k :: 0 <= k < |a| ==> a[k] in entries && a[k].kind == Kind.Tree
    ensures forall k :: 0 <= k < |b| ==> b[k] in entries && b[k].kind != Kind.Tree
    ensures TreesFirst(a + b) && forall e :: e in a + b <==> e in entries
  {
    forall k | 0 <= k < |a| ensures a[k] in entries && a[k].kind == Kind.Tree {
      assert a[k] in a;
    }
    forall k | 0 <= k < |b| ensures b[k] in entries && b[k].kind != Kind.Tree {
      assert b[k] in b;
    }
    forall e ensures e in a + b <==> e in entries {
      assert e in a + b <==> e in a || e in b;
    }
  }

  lemma HalvesDistinct(entries: seq<Entry>, a: seq<Entry>, b: seq<Entry>)
    requires Halves(entries, a, b) && Sections.DistinctOids(entries) && Sections.DistinctOids(a)
    requires Sections.DistinctOids(b)
    ensures Sections.DistinctOids(a + b)
  {
    hide Halves;
    HalvesKinds(entries, a, b);
    forall i, j | 0 <= i < |a| && 0 <= j < |b| ensures a[i].oid != b[j].oid {
      if a[i].oid == b[j].oid {
        SameOidSameEntry(entries, a[i], b[j]);
      }
    }
  }

  lemma HalvesAfterBases(entries: seq<Entry>, a: seq<Entry>, b: seq<Entry>, trees: seq<int>, blobs: seq<int>, j: nat,
                         k: nat)
    requires Halves(entries, a, b)
    requires Walked(Section(entries, true), a, trees) && Walked(Section(entries, false), b, blobs)
    requires j < |a + b| && k < |a + b| && DeltaEdge(a + b)((a + b)[k], (a + b)[j])
    ensures j < k || Reaches(DeltaEdge(a + b), {(a + b)[j]}, (a + b)[k])
  {
    hide Reaches, Walked, Section, Halves;
    HalvesKinds(entries, a, b);
    if k < |a| {
      WalkedAfterBases(Section(entries, true), a, trees, a + b, true, j, k);
    } else {
      WalkedAfterBases(Section(entries, false), b, blobs, a + b, false, j - |a|, k - |a|);
    }
  }

  /** Trees then blobs, each walked, are the whole in order. */
  lemma SectionsOrder(entries: seq<Entry>, a: seq<Entry>, b: seq<Entry>, trees: seq<int>, blobs: seq<int>)
    requires Sections.DistinctOids(entries)
    requires Walked(Section(entries, true), a, trees) && Walked(Section(entries, false), b, blobs)
    ensures Orders(entries, a + b)
  {
    hide Reaches, Walked, Section, Sections.DistinctOids, TreesFirst;
    SectionDistinct(entries, true);
    SectionDistinct(entries, false);
    SectionsSize(entries);
    WalkedSame(Section(entries, true), a, trees);
    WalkedSame(Section(entries, false), b, blobs);
    WalkedDistinct(Section(entries, true), a, trees);
    WalkedDistinct(Section(entries, false), b, blobs);
    assert Halves(entries, a, b);
    HalvesKinds(entries, a, b);
    HalvesDistinct(entries, a, b);
    assert AfterBases(a + b) by {
      hide Halves;
      forall j, k | 0 <= j < |a + b| && 0 <= k < |a + b| && DeltaEdge(a + b)((a + b)[k], (a + b)[j])
        ensures j < k || Reaches(DeltaEdge(a + b), {(a + b)[j]}, (a + b)[k])
      {
        HalvesAfterBases(entries, a, b, trees, blobs, j, k);
      }
    }
  }

  lemma WalkedSame(section: seq<Entry>, ordered: seq<Entry>, emitted: seq<int>)
    requires Walked(section, ordered, emitted)
    ensures |ordered| == |section| && forall e :: e in ordered <==> e in section
  {
    hide Sections.BasesFirst;
    SameEntries(section, ordered, emitted);
  }

  /** Reorders a pack so that trees lead and, within a section, bases come before their deltas;
      nothing is lost or added. */
  method DependencyOrder(entries: seq<Entry>) returns (ordered: seq<Entry>)
    requires Sections.DistinctOids(entries)
    ensures Orders(entries, ordered)
  {
    hide Reaches, Sections.BasesFirst, Sections.Permutes, Orders;
    SectionDistinct(entries, true);
    SectionDistinct(entries, false);
    var a, trees := Sections.Order(Section(entries, true));
    var b, blobs := Sections.Order(Section(entries, false));
    WalkedBy(Section(entries, true), a, trees);
    WalkedBy(Section(entries, false), b, blobs);
    SectionsOrder(entries, a, b, trees, blobs);
    ordered := a + b;
  }

  lemma SameEntries(section: seq<Entry>, ordered: seq<Entry>, emitted: seq<int>)
    requires Sections.Permutes(emitted, |section|) && |ordered| == |section| == |emitted|
    requires forall k :: 0 <= k < |ordered| && k < |emitted| && 0 <= emitted[k] < |section| ==>
      ordered[k] == section[emitted[k]]
    ensures forall e :: e in ordered <==> e in section
  {
    forall e | e in ordered ensures e in section {
      var k :| 0 <= k < |ordered| && ordered[k] == e;
      assert emitted[k] in emitted;
    }
    forall e | e in section ensures e in ordered {
      var i :| 0 <= i < |section| && section[i] == e;
      assert i in emitted;
      var k :| 0 <= k < |emitted| && emitted[k] == i;
      assert ordered[k] == e;
    }
  }

  /** A commit's pack after classification: every planned entry as decided and
      nothing else, each object once, trees first and bases before their deltas. */
  ghost predicate Classified(packs: map<Oid, seq<Entry>>, sent: map<Oid, Sent>, older: map<Oid, Oid>,
                             proven: set<(Oid, Oid)>, c: Oid, pack: seq<Entry>)
    requires c in packs
  {
    && |pack| == |packs[c]| && Sections.DistinctOids(pack) && TreesFirst(pack) && AfterBases(pack)
    && (forall k :: 0 <= k < |packs[c]| ==> Kept(packs, sent, older, proven, c, packs[c][k], pack))
    && (forall e :: e in pack ==> FromPlan(packs, sent, older, proven, c, e))
  }

  ghost predicate Kept(packs: map<Oid, seq<Entry>>, sent: map<Oid, Sent>, older: map<Oid, Oid>,
                       proven: set<(Oid, Oid)>, c: Oid, planned: Entry, pack: seq<Entry>)
  {
    exists e :: e in pack && Decided(packs, sent, older, proven, c, planned, e)
  }

  ghost predicate FromPlan(packs: map<Oid, seq<Entry>>, sent: map<Oid, Sent>, older: map<Oid, Oid>,
                           proven: set<(Oid, Oid)>, c: Oid, e: Entry)
    requires c in packs
  {
    exists k :: 0 <= k < |packs[c]| && Decided(packs, sent, older, proven, c, packs[c][k], e)
  }

  /** Rewrites each pack by the verdict on each of its entries, and orders it again. */
  method ClassifyPush(packs: map<Oid, seq<Entry>>, sent: map<Oid, Sent>, older: map<Oid, Oid>, proven: set<(Oid, Oid)>)
    returns (after: map<Oid, seq<Entry>>)
    requires forall c :: c in packs ==> Sections.DistinctOids(packs[c])
    ensures after.Keys == packs.Keys
    ensures forall c :: c in packs ==> Classified(packs, sent, older, proven, c, after[c])
  {
    hide Decided, HomesOk, Classified;
    var homes := Homes(packs);
    after := map[];
    var left := packs.Keys;
    while left != {}
      invariant left <= packs.Keys && after.Keys == packs.Keys - left
      invariant forall c :: c in after ==> Classified(packs, sent, older, proven, c, after[c])
      decreases |left|
    {
      var c := Pick(left);
      var judged := Judge(c, packs[c], sent, homes, older, proven, packs);
      JudgedDistinct(packs, sent, older, proven, c, judged);
      var ordered := DependencyOrder(judged);
      ClassifiedBy(packs, sent, older, proven, c, judged, ordered);
      after := after[c := ordered];
      left := left - {c};
    }
  }

  lemma DecidedOid(packs: map<Oid, seq<Entry>>, sent: map<Oid, Sent>, older: map<Oid, Oid>, proven: set<(Oid, Oid)>,
                   c: Oid, planned: Entry, e: Entry)
    requires Decided(packs, sent, older, proven, c, planned, e)
    ensures e.oid == planned.oid && e.kind == planned.kind
    ensures e == planned || FromClient(sent, planned, e)
    ensures e != planned && e.base.Some? ==> Served(packs, older, proven, c, e.base.value)
  {
    hide Served;
  }

  lemma JudgedDistinct(packs: map<Oid, seq<Entry>>, sent: map<Oid, Sent>, older: map<Oid, Oid>,
                       proven: set<(Oid, Oid)>, c: Oid, judged: seq<Entry>)
    requires c in packs && Sections.DistinctOids(packs[c]) && |judged| == |packs[c]|
    requires forall k :: 0 <= k < |judged| ==> Decided(packs, sent, older, proven, c, packs[c][k], judged[k])
    ensures Sections.DistinctOids(judged)
  {
    hide Decided;
    forall k | 0 <= k < |judged| ensures judged[k].oid == packs[c][k].oid {
      DecidedOid(packs, sent, older, proven, c, packs[c][k], judged[k]);
    }
  }

  lemma ClassifiedBy(packs: map<Oid, seq<Entry>>, sent: map<Oid, Sent>, older: map<Oid, Oid>,
                     proven: set<(Oid, Oid)>, c: Oid, judged: seq<Entry>, ordered: seq<Entry>)
    requires c in packs && |judged| == |packs[c]| && Orders(judged, ordered)
    requires forall k :: 0 <= k < |judged| ==> Decided(packs, sent, older, proven, c, packs[c][k], judged[k])
    ensures Classified(packs, sent, older, proven, c, ordered)
  {
    hide Decided, AfterBases, TreesFirst, Sections.DistinctOids;
    forall e | e in ordered ensures FromPlan(packs, sent, older, proven, c, e) {
      assert e in judged;
      var k :| 0 <= k < |judged| && judged[k] == e;
    }
    forall k | 0 <= k < |packs[c]| ensures Kept(packs, sent, older, proven, c, packs[c][k], ordered) {
      assert judged[k] in judged;
    }
  }

  // ------------------------------------------------------------ readability

  /** `home`'s pack, planned or older, has the object; or the tree of the commit it grew from does. */
  ghost predicate Keeps(full: Store, p: PushPlan, older: map<Oid, Oid>, home: Oid, oid: Oid)
  {
    Houses(p.packs, home, oid) || (oid in older && older[oid] == home) || AtBoundary(full, p, home, oid)
  }

  /** A reader of `c`'s pack finds the object in the pack of `c` or of an ancestor. */
  ghost predicate Readable(full: Store, p: PushPlan, older: map<Oid, Oid>, history: (Oid, Oid) -> bool, c: Oid,
                           oid: Oid)
  {
    exists home :: Reaches(history, {c}, home) && Keeps(full, p, older, home, oid)
  }

  /** Every proof is of real ancestry. */
  ghost predicate ProofsHold(history: (Oid, Oid) -> bool, proven: set<(Oid, Oid)>)
  {
    forall t, h :: (t, h) in proven ==> Reaches(history, {t}, h)
  }

  /** A first-parent line is a line of history. */
  lemma LineIsHistory(batch: Batch, history: (Oid, Oid) -> bool, c: Oid, a: Oid)
    requires Proofs.Recorded(batch, history) && OnLine(batch, c, a)
    ensures Reaches(history, {c}, a)
  {
    hide Proofs.Recorded;
    var edge := FirstParent(batch);
    var path :| Leads(edge, {c}, path, a);
    forall i | 0 <= i < |path| - 1 ensures history(path[i], path[i + 1]) {
      assert edge(path[i], path[i + 1]);
      Proofs.EdgeRecorded(batch, history, path[i], path[i + 1]);
    }
    assert Leads(history, {c}, path, a);
  }

  lemma SuppliedIsReadable(full: Store, p: PushPlan, older: map<Oid, Oid>, history: (Oid, Oid) -> bool, c: Oid,
                           oid: Oid)
    requires Proofs.Recorded(p.batch, history) && Supplied(full, p, c, oid)
    ensures Readable(full, p, older, history, c, oid)
  {
    hide Reaches, AtBoundary, Proofs.Recorded;
    var a :| OnLine(p.batch, c, a) && Supplies(full, p, a, oid);
    LineIsHistory(p.batch, history, c, a);
    assert Keeps(full, p, older, a, oid);
  }

  lemma ServedIsReadable(full: Store, p: PushPlan, older: map<Oid, Oid>, proven: set<(Oid, Oid)>,
                         history: (Oid, Oid) -> bool, c: Oid, oid: Oid)
    requires ProofsHold(history, proven) && Served(p.packs, older, proven, c, oid)
    ensures Readable(full, p, older, history, c, oid)
  {
    hide Reaches, AtBoundary;
    var home :| (Houses(p.packs, home, oid) || (oid in older && older[oid] == home)) && Proven(proven, c, home);
    ReachSeed(history, {c}, c);
    assert Reaches(history, {c}, home);
    assert Keeps(full, p, older, home, oid);
  }

  /** After classification every delta base is where a reader will look, whether
      the client's delta was kept or the planner's predecessor used. */
  lemma ClassifiedBaseIsReadable(full: Store, p: PushPlan, order: seq<Oid>, sent: map<Oid, Sent>,
                                 older: map<Oid, Oid>, proven: set<(Oid, Oid)>,
                                 history: (Oid, Oid) -> bool, c: Oid, pack: seq<Entry>, e: Entry)
    requires AllPlanned(full, p) && IsTopo(p.batch, order) && Proofs.Recorded(p.batch, history)
    requires ProofsHold(history, proven)
    requires c in p.batch && c in p.packs && Classified(p.packs, sent, older, proven, c, pack)
    requires e in pack && e.base.Some?
    ensures Readable(full, p, older, history, c, e.base.value)
  {
    hide AllPlanned, IsTopo, ProofsHold, Proofs.Recorded, Readable, Served, Supplied, Decided;
    assert FromPlan(p.packs, sent, older, proven, c, e);
    var k :| 0 <= k < |p.packs[c]| && Decided(p.packs, sent, older, proven, c, p.packs[c][k], e);
    DecidedOid(p.packs, sent, older, proven, c, p.packs[c][k], e);
    if e == p.packs[c][k] {
      PlannedBaseIsSupplied(full, p, order, c, k);
      SuppliedIsReadable(full, p, older, history, c, e.base.value);
    } else {
      ServedIsReadable(full, p, older, proven, history, c, e.base.value);
    }
  }

  /** Bounding chains takes bases away and gives none, so what it leaves is readable too. */
  lemma BoundedBaseIsReadable(full: Store, p: PushPlan, order: seq<Oid>, sent: map<Oid, Sent>,
                              older: map<Oid, Oid>, proven: set<(Oid, Oid)>,
                              history: (Oid, Oid) -> bool, c: Oid, pack: seq<Entry>, left: seq<Entry>, e: Entry)
    requires AllPlanned(full, p) && IsTopo(p.batch, order) && Proofs.Recorded(p.batch, history)
    requires ProofsHold(history, proven)
    requires c in p.batch && c in p.packs && Classified(p.packs, sent, older, proven, c, pack)
    requires Cuts(pack, left) && e in left && e.base.Some?
    ensures Readable(full, p, older, history, c, e.base.value)
  {
    hide AllPlanned, IsTopo, ProofsHold, Proofs.Recorded, Readable, Classified;
    var k :| 0 <= k < |left| && left[k] == e;
    assert e == pack[k];
    ClassifiedBaseIsReadable(full, p, order, sent, older, proven, history, c, pack, e);
  }

  /** What the ancestry pass proves is real ancestry, once its boundary answers are. */
  lemma ProvenPairsHold(push: Proofs.Push, oids: seq<Oid>, reachable: seq<set<Oid>>, history: (Oid, Oid) -> bool,
                        proven: set<(Oid, Oid)>)
    requires |oids| == |reachable| && Proofs.Recorded(push.batch, history)
    requires Proofs.AnswersAreTrue(history, oids, reachable)
    requires forall t, h :: (t, h) in proven ==> t in push.batch && Proofs.Settled(push.batch, oids, reachable, t, h)
    ensures ProofsHold(history, proven)
  {
    hide Proofs.Settled, Proofs.Recorded, Proofs.AnswersAreTrue, Reaches;
    forall t, h | (t, h) in proven ensures Reaches(history, {t}, h) {
      Proofs.SettledIsAncestry(push.batch, oids, reachable, history, t, h);
    }
  }
}
