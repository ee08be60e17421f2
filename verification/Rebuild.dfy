/** Contents on demand from the packs of a push: follow bases until one needs no
    other, then apply the deltas passed on the way.
*/
module Rebuild {
  import opened Graphs
  import opened Objects
  import opened PackContent
  import opened ByteCaches

  /** An identified pack: each entry's id, parallel to its entries. */
  datatype WirePack = WirePack(pack: Pack, oids: seq<Oid>)

  /** The packs received, with an entry for each object in them. */
  datatype Wire = Wire(packs: seq<WirePack>, entryOf: map<Oid, WireRef>, codec: Codec) {
    predicate Holds(at: WireRef)
    {
      && at.pack < |packs|
      && at.at < |packs[at.pack].pack.entries|
      && at.at < |packs[at.pack].oids|
    }

    function BaseAt(at: WireRef): Base
      requires Holds(at)
    {
      packs[at.pack].pack.entries[at.at].base
    }

    function OidAt(at: WireRef): Oid
      requires Holds(at)
    {
      packs[at.pack].oids[at.at]
    }

    function InflateAt(at: WireRef): Option<Content>
      requires Holds(at)
    {
      packs[at.pack].pack.inflate(at.at)
    }
  }

  // ----------------------------------------------------- receiving a pack

  /** Earlier in the push. */
  predicate Before(a: WireRef, b: WireRef)
  {
    a.pack < b.pack || (a.pack == b.pack && a.at < b.at)
  }

  /** Each id received is indexed at its first occurrence, and no other id is. */
  ghost predicate Indexed(wire: Wire)
  {
    && (forall at :: wire.Holds(at) ==> wire.OidAt(at) in wire.entryOf)
    && (forall oid :: oid in wire.entryOf ==>
          && wire.Holds(wire.entryOf[oid]) && wire.OidAt(wire.entryOf[oid]) == oid
          && forall at :: wire.Holds(at) && wire.OidAt(at) == oid ==> !Before(at, wire.entryOf[oid]))
  }

  /** Takes an identified pack as the push's, indexing where its objects sit. */
  method Adopt(wire: Wire, pack: WirePack) returns (r: Wire)
    requires Indexed(wire) && |pack.oids| == |pack.pack.entries|
    ensures Indexed(r) && r.packs == wire.packs + [pack] && r.codec == wire.codec
  {
    var n := |wire.packs|;
    var entryOf := wire.entryOf;
    var i := 0;
    while i < |pack.oids|
      invariant i <= |pack.oids|
      invariant forall oid :: oid in wire.entryOf ==> oid in entryOf && entryOf[oid] == wire.entryOf[oid]
      invariant forall k :: 0 <= k < i ==> pack.oids[k] in entryOf
      invariant forall oid :: oid in entryOf && oid !in wire.entryOf ==>
        entryOf[oid].pack == n && entryOf[oid].at < i && pack.oids[entryOf[oid].at] == oid
        && forall k :: 0 <= k < entryOf[oid].at ==> pack.oids[k] != oid
    {
      if pack.oids[i] !in entryOf {
        entryOf := entryOf[pack.oids[i] := WireRef(n, i)];
      }
      i := i + 1;
    }
    r := Wire(wire.packs + [pack], entryOf, wire.codec);
    AdoptedIsIndexed(wire, pack, r);
  }

  lemma AdoptedIsIndexed(wire: Wire, pack: WirePack, r: Wire)
    requires Indexed(wire) && |pack.oids| == |pack.pack.entries| && r.packs == wire.packs + [pack]
    requires forall oid :: oid in wire.entryOf ==> oid in r.entryOf && r.entryOf[oid] == wire.entryOf[oid]
    requires forall k :: 0 <= k < |pack.oids| ==> pack.oids[k] in r.entryOf
    requires forall oid :: oid in r.entryOf && oid !in wire.entryOf ==>
      r.entryOf[oid].pack == |wire.packs| && r.entryOf[oid].at < |pack.oids| && pack.oids[r.entryOf[oid].at] == oid
      && forall k :: 0 <= k < r.entryOf[oid].at ==> pack.oids[k] != oid
    ensures Indexed(r)
  {
    var n := |wire.packs|;
    forall at | r.Holds(at) ensures r.OidAt(at) in r.entryOf {
      if at.pack < n {
        assert wire.Holds(at) && wire.OidAt(at) == r.OidAt(at);
      } else {
        assert r.OidAt(at) == pack.oids[at.at];
      }
    }
    forall oid | oid in r.entryOf
      ensures r.Holds(r.entryOf[oid]) && r.OidAt(r.entryOf[oid]) == oid
      ensures forall at :: r.Holds(at) && r.OidAt(at) == oid ==> !Before(at, r.entryOf[oid])
    {
      forall at | r.Holds(at) && r.OidAt(at) == oid ensures !Before(at, r.entryOf[oid]) {
        if at.pack < n {
          assert wire.Holds(at) && wire.OidAt(at) == oid;
        }
      }
    }
  }

  // ------------------------------------------------- what an accepted push is

  /** `content` is the content of the object called `oid`. */
  ghost predicate Genuine(codec: Codec, oid: Oid, content: Content)
  {
    exists kind :: codec.hash(Object(kind, content)) == oid
  }

  /** Only one content is genuine. */
  lemma GenuineIsUnique(codec: Codec, oid: Oid, a: Content, b: Content)
    requires Injective(codec) && Genuine(codec, oid, a) && Genuine(codec, oid, b)
    ensures a == b
  {
    var k :| codec.hash(Object(k, a)) == oid;
    var l :| codec.hash(Object(l, b)) == oid;
    assert Object(k, a) == Object(l, b);
  }

  /** The id an entry deltas against. */
  function Needs(wire: Wire, at: WireRef): Oid
    requires wire.Holds(at) && !wire.BaseAt(at).Whole?
    requires wire.BaseAt(at).InPack? ==> wire.Holds(WireRef(at.pack, wire.BaseAt(at).at))
  {
    match wire.BaseAt(at)
    case InPack(j) => wire.OidAt(WireRef(at.pack, j))
    case Ref(id) => id
  }

  /** A whole entry inflates to its object. */
  ghost predicate WholeOk(wire: Wire, at: WireRef)
    requires wire.Holds(at)
  {
    wire.InflateAt(at).Some? && Genuine(wire.codec, wire.OidAt(at), wire.InflateAt(at).value)
  }

  /** A delta applies to the object it names, and makes its own. */
  ghost predicate DeltaOk(wire: Wire, at: WireRef, base: Content)
    requires wire.Holds(at)
  {
    && wire.InflateAt(at).Some?
    && wire.codec.apply(base, wire.InflateAt(at).value).Some?
    && Genuine(wire.codec, wire.OidAt(at), wire.codec.apply(base, wire.InflateAt(at).value).value)
  }

  ghost predicate EntryOk(wire: Wire, repo: map<Oid, Object>, at: WireRef)
    requires wire.Holds(at)
  {
    match wire.BaseAt(at)
    case Whole(_) => WholeOk(wire, at)
    case InPack(j) =>
      && j < at.at && wire.Holds(WireRef(at.pack, j))
      && forall base :: Genuine(wire.codec, wire.OidAt(WireRef(at.pack, j)), base) ==> DeltaOk(wire, at, base)
    case Ref(id) =>
      && (id in repo || id in wire.entryOf)
      && forall base :: Genuine(wire.codec, id, base) ==> DeltaOk(wire, at, base)
  }

  /** Stored objects are called what they hash to. */
  ghost predicate Stored(codec: Codec, repo: map<Oid, Object>)
  {
    forall id :: id in repo ==> codec.hash(repo[id]) == id
  }

  /** A push every pack of which was identified. */
  ghost predicate Accepted(wire: Wire, repo: map<Oid, Object>)
  {
    && Injective(wire.codec) && Indexed(wire) && Stored(wire.codec, repo)
    && forall at :: wire.Holds(at) ==> EntryOk(wire, repo, at)
  }

  // ---------------------------------------------------------------- the walk

  /** Where the packs alone say an entry's base sits. */
  function Link(wire: Wire, at: WireRef): Option<WireRef>
    requires wire.Holds(at)
  {
    match wire.BaseAt(at)
    case Whole(_) => None
    case InPack(j) => Some(WireRef(at.pack, j))
    case Ref(id) => if id in wire.entryOf then Some(wire.entryOf[id]) else None
  }

  /** The entries a walk visits, in order: each links to the next, and a link by
      id leads somewhere new. */
  ghost predicate Trail(wire: Wire, p: seq<WireRef>)
  {
    && (forall k :: 0 <= k < |p| ==> wire.Holds(p[k]))
    && (forall k :: 0 <= k < |p| - 1 ==> Hops(wire, p, k))
  }

  ghost predicate Hops(wire: Wire, p: seq<WireRef>, k: nat)
    requires k < |p| - 1 && wire.Holds(p[k])
  {
    Link(wire, p[k]) == Some(p[k + 1]) && (wire.BaseAt(p[k]).Ref? ==> p[k + 1] !in p[..k + 1])
  }

  /** The walk from `at` passes nothing cached before it comes back, by the id
      `oid`, to an entry of its own, and that object is neither cached nor stored. */
  ghost predicate Stuck(wire: Wire, repo: map<Oid, Object>, lru: Lru, at: WireRef, oid: Oid)
  {
    oid !in repo && !Cached(lru, oid) && exists p :: Returns(wire, at, oid, p) && Cold(wire, lru, p)
  }

  ghost predicate Cached(lru: Lru, oid: Oid)
  {
    exists e :: e in lru && e.0 == oid
  }

  /** No entry of the trail but the first, which the walk is asked for, is cached. */
  ghost predicate Cold(wire: Wire, lru: Lru, p: seq<WireRef>)
  {
    forall k :: 1 <= k < |p| ==> wire.Holds(p[k]) && !Cached(lru, wire.OidAt(p[k]))
  }

  ghost predicate Returns(wire: Wire, at: WireRef, oid: Oid, p: seq<WireRef>)
  {
    && Trail(wire, p) && |p| > 0 && p[0] == at
    && wire.BaseAt(p[|p| - 1]) == Ref(oid)
    && oid in wire.entryOf && wire.entryOf[oid] in p
  }

  /** Every hop's base is the object the next hop makes. */
  ghost predicate Feeds(wire: Wire, chain: seq<WireRef>, root: Oid)
  {
    && (forall k :: 0 <= k < |chain| ==> wire.Holds(chain[k]) && Linked(wire, chain[k]))
    && (forall k :: 0 <= k < |chain| - 1 ==> Needs(wire, chain[k]) == wire.OidAt(chain[k + 1]))
    && (chain != [] ==> Needs(wire, chain[|chain| - 1]) == root)
  }

  /** A delta whose base, if in its own pack, is there. */
  ghost predicate Linked(wire: Wire, at: WireRef)
    requires wire.Holds(at)
  {
    !wire.BaseAt(at).Whole? && (wire.BaseAt(at).InPack? ==> wire.Holds(WireRef(at.pack, wire.BaseAt(at).at)))
  }

  /** Nothing cached is wrong. */
  ghost predicate CacheOk(codec: Codec, lru: Lru)
  {
    forall e :: e in lru ==> Genuine(codec, e.0, e.1)
  }

  datatype Result = Got(content: Content) | Missing(oid: Oid) | Corrupt

  lemma AcceptedAt(wire: Wire, repo: map<Oid, Object>, at: WireRef)
    requires Accepted(wire, repo) && wire.Holds(at)
    ensures EntryOk(wire, repo, at)
  {
  }

  /** A genuine base makes a genuine object. */
  lemma AppliesGenuinely(wire: Wire, repo: map<Oid, Object>, at: WireRef, base: Content)
    requires Accepted(wire, repo) && wire.Holds(at) && Linked(wire, at)
    requires Genuine(wire.codec, Needs(wire, at), base)
    ensures DeltaOk(wire, at, base)
  {
    hide Accepted, Genuine, DeltaOk;
    AcceptedAt(wire, repo, at);
  }

  /** Where a chain bottoms out: a whole entry, or content already in hand. */
  datatype Root = AtEntry(at: WireRef) | InHand(content: Content)

  ghost predicate RootOk(wire: Wire, root: Root, oid: Oid)
  {
    match root
    case AtEntry(at) => wire.Holds(at) && wire.BaseAt(at).Whole? && wire.OidAt(at) == oid
    case InHand(content) => Genuine(wire.codec, oid, content)
  }

  /** The ids a chain passes through, applied onto a root: the root's if it is an
      entry, then each hop's, the last first. */
  ghost function Passing(wire: Wire, root: Root, chain: seq<WireRef>): (oids: seq<Oid>)
    requires root.AtEntry? ==> wire.Holds(root.at)
    requires forall k :: 0 <= k < |chain| ==> wire.Holds(chain[k])
  {
    if chain == [] then (if root.AtEntry? then [wire.OidAt(root.at)] else [])
    else Passing(wire, root, chain[1..]) + [wire.OidAt(chain[0])]
  }

  /** Each of those ids, with its own content. */
  ghost predicate Contents(codec: Codec, oids: seq<Oid>, passed: Lru)
  {
    |passed| == |oids| && forall k :: 0 <= k < |oids| ==> passed[k].0 == oids[k] && Genuine(codec, oids[k], passed[k].1)
  }

  lemma ContentsMore(codec: Codec, oids: seq<Oid>, passed: Lru, oid: Oid, content: Content)
    requires Contents(codec, oids, passed) && Genuine(codec, oid, content)
    ensures Contents(codec, oids + [oid], passed + [(oid, content)])
    ensures Small(passed + [(oid, content)]) == Keep(Small(passed), oid, content)
  {
    hide Genuine;
    assert (passed + [(oid, content)])[..|passed|] == passed;
  }

  /** Applies `chain`, newest first, onto a root; `along` is what it passes through,
      in order, less what is too large to keep. */
  method ApplyChain(wire: Wire, ghost repo: map<Oid, Object>, root: Root, chain: seq<WireRef>,
                    ghost rootOid: Oid, ghost target: Oid)
    returns (r: Result, along: Lru)
    requires Accepted(wire, repo) && RootOk(wire, root, rootOid) && Feeds(wire, chain, rootOid)
    requires target == if chain == [] then rootOid else wire.OidAt(chain[0])
    ensures r.Got? && Genuine(wire.codec, target, r.content)
    ensures CacheOk(wire.codec, along)
    ensures exists passed :: Contents(wire.codec, Passing(wire, root, chain), passed) && along == Small(passed)
  {
    hide Accepted, Genuine, DeltaOk, Injective, Contents;
    along := [];
    ghost var passed: Lru := [];
    NoContents(wire.codec);
    var content;
    match root {
      case AtEntry(at) =>
        WholeParts(wire, repo, at);
        if wire.InflateAt(at).None? {
          return Corrupt, [];
        }
        content := wire.InflateAt(at).value;
        ContentsMore(wire.codec, [], passed, wire.OidAt(at), content);
        assert [] + [wire.OidAt(at)] == Passing(wire, root, []);
        passed := passed + [(wire.OidAt(at), content)];
        along := Keep(along, wire.OidAt(at), content);
      case InHand(c) =>
        content := c;
    }
    var k := |chain|;
    assert chain[k..] == [];
    while k > 0
      invariant 0 <= k <= |chain|
      invariant Contents(wire.codec, Passing(wire, root, chain[k..]), passed) && along == Small(passed)
      invariant Genuine(wire.codec, if k == |chain| then rootOid else wire.OidAt(chain[k]), content)
      invariant CacheOk(wire.codec, along)
    {
      k := k - 1;
      AppliesGenuinely(wire, repo, chain[k], content);
      DeltaParts(wire, chain[k], content);
      var delta := wire.InflateAt(chain[k]);
      if delta.None? {
        return Corrupt, [];
      }
      var next := wire.codec.apply(content, delta.value);
      if next.None? {
        return Corrupt, [];
      }
      content := next.value;
      ContentsMore(wire.codec, Passing(wire, root, chain[k + 1..]), passed, wire.OidAt(chain[k]), content);
      assert chain[k..][1..] == chain[k + 1..];
      passed := passed + [(wire.OidAt(chain[k]), content)];
      along := Keep(along, wire.OidAt(chain[k]), content);
    }
    assert chain[0..] == chain;
    r := Got(content);
  }

  lemma NoContents(codec: Codec)
    ensures Contents(codec, [], []) && Small([]) == []
  {
  }

  /** Skips what the cache would refuse anyway. */
  function Keep(along: Lru, oid: Oid, content: Content): Lru
  {
    if |content| <= MAX_CACHED_BYTES then along + [(oid, content)] else along
  }

  lemma WholeParts(wire: Wire, repo: map<Oid, Object>, at: WireRef)
    requires Accepted(wire, repo) && wire.Holds(at) && wire.BaseAt(at).Whole?
    ensures wire.InflateAt(at).Some? && Genuine(wire.codec, wire.OidAt(at), wire.InflateAt(at).value)
  {
    hide Accepted, Genuine;
    AcceptedAt(wire, repo, at);
  }

  lemma DeltaParts(wire: Wire, at: WireRef, base: Content)
    requires wire.Holds(at) && DeltaOk(wire, at, base)
    ensures wire.InflateAt(at).Some? && wire.codec.apply(base, wire.InflateAt(at).value).Some?
    ensures Genuine(wire.codec, wire.OidAt(at), wire.codec.apply(base, wire.InflateAt(at).value).value)
  {
  }

  /** The cache once an object outside the push is read: moved to the front of it if
      it was there, and offered to it if not. */
  ghost function Consulted(lru: Lru, oid: Oid, content: Content): Lru
  {
    if Cached(lru, oid) then Without(lru, oid) + [(oid, content)] else Offered(lru, oid, content)
  }

  /** Content by id from the cache or else the repository, cached on the way; missing
      exactly when it is in neither. */
  method Outside(cache: ByteCache, codec: Codec, repo: map<Oid, Object>, oid: Oid) returns (r: Result)
    requires cache.Valid() && CacheOk(codec, cache.lru) && Stored(codec, repo)
    modifies cache
    ensures cache.Valid() && CacheOk(codec, cache.lru)
    ensures r.Got? ==> Genuine(codec, oid, r.content)
    ensures !r.Corrupt? && (r.Missing? ==> r.oid == oid)
    ensures r.Missing? <==> oid !in repo && !Cached(old(cache.lru), oid)
    ensures r.Missing? ==> cache.lru == old(cache.lru)
    ensures r.Got? ==> cache.lru == Consulted(old(cache.lru), oid, r.content)
  {
    var hit := cache.Get(oid);
    if hit.Some? {
      return Got(hit.value);
    }
    if oid !in repo {
      return Missing(oid);
    }
    var content := repo[oid].content;
    assert codec.hash(Object(repo[oid].kind, content)) == oid;
    cache.Put(oid, content);
    r := Got(content);
  }

  // ------------------------------------------------------ how the walk ends

  /** The walk from `at` is over after `p`: at a whole entry, or before an object stored or cached. */
  ghost predicate Ends(wire: Wire, repo: map<Oid, Object>, lru: Lru, at: WireRef, p: seq<WireRef>)
  {
    && Trail(wire, p) && |p| > 0 && p[0] == at
    && match wire.BaseAt(p[|p| - 1])
       case Whole(_) => true
       case InPack(_) => false
       case Ref(id) => (id in repo || Cached(lru, id)) && (id in wire.entryOf ==> wire.entryOf[id] in p)
  }

  /** Links leave a walk no choice. */
  lemma {:induction false} SameTrail(wire: Wire, p: seq<WireRef>, q: seq<WireRef>, n: nat)
    requires Trail(wire, p) && Trail(wire, q) && 0 < n <= |p| && n <= |q| && p[0] == q[0]
    ensures p[..n] == q[..n]
  {
    if n > 1 {
      SameTrail(wire, p, q, n - 1);
      assert p[n - 2] == p[..n - 1][n - 2] == q[n - 2];
      assert Hops(wire, p, n - 2) && Hops(wire, q, n - 2);
      assert p[..n] == p[..n - 1] + [p[n - 1]];
      assert q[..n] == q[..n - 1] + [q[n - 1]];
    }
  }

  lemma HopIsNew(wire: Wire, q: seq<WireRef>, k: nat)
    requires Trail(wire, q) && k < |q| - 1
    ensures wire.Holds(q[k]) && Link(wire, q[k]) == Some(q[k + 1])
    ensures wire.BaseAt(q[k]).Ref? ==> q[k + 1] !in q[..k + 1]
  {
    assert Hops(wire, q, k);
  }

  /** A walk stops at the first link by id that comes back to it. */
  lemma StopsThere(wire: Wire, p: seq<WireRef>, q: seq<WireRef>, oid: Oid)
    requires |p| > 0 && Returns(wire, p[0], oid, p) && Trail(wire, q) && |q| > 0 && p[0] == q[0]
    ensures |q| <= |p| && q == p[..|q|]
  {
    hide Trail;
    var n := if |p| < |q| then |p| else |q|;
    SameTrail(wire, p, q, n);
    assert q[n - 1] == q[..n][n - 1] == p[n - 1];
    assert p[..|p|] == p && q[..|q|] == q;
    if n < |q| {
      HopIsNew(wire, q, n - 1);
    }
  }

  /** A walk that ends is not stuck. */
  lemma EndsIsNotStuck(wire: Wire, repo: map<Oid, Object>, lru: Lru, at: WireRef, q: seq<WireRef>, oid: Oid)
    requires Ends(wire, repo, lru, at, q)
    ensures !Stuck(wire, repo, lru, at, oid)
  {
    hide Trail, Cached, Cold;
    forall p | Returns(wire, at, oid, p) ensures oid in repo || Cached(lru, oid) {
      StopsThere(wire, p, q, oid);
      assert q[|q| - 1] == p[|q| - 1];
      if |q| < |p| {
        HopIsNew(wire, p, |q| - 1);
      }
    }
  }

  /** A walk that reaches an entry whose object is cached is not stuck. */
  lemma WarmIsNotStuck(wire: Wire, repo: map<Oid, Object>, lru: Lru, at: WireRef, q: seq<WireRef>, oid: Oid)
    requires Trail(wire, q) && |q| > 1 && q[0] == at && Cached(lru, wire.OidAt(q[|q| - 1]))
    ensures !Stuck(wire, repo, lru, at, oid)
  {
    hide Trail, Cached;
    forall p | Returns(wire, at, oid, p) ensures !Cold(wire, lru, p) {
      StopsThere(wire, p, q, oid);
      assert q[|q| - 1] == p[|q| - 1];
    }
  }

  /** A walk is stuck by at most one id. */
  lemma StuckOnce(wire: Wire, repo: map<Oid, Object>, lru: Lru, at: WireRef, a: Oid, b: Oid)
    requires Stuck(wire, repo, lru, at, a) && Stuck(wire, repo, lru, at, b)
    ensures a == b
  {
    hide Cached, Cold;
    var p :| Returns(wire, at, a, p) && Cold(wire, lru, p);
    var q :| Returns(wire, at, b, q) && Cold(wire, lru, q);
    StopsThere(wire, p, q, a);
    StopsThere(wire, q, p, b);
    assert p[..|q|] == p;
  }

  /** Links that never come back leave no walk stuck. */
  lemma AcyclicIsNotStuck(wire: Wire, repo: map<Oid, Object>, lru: Lru, at: WireRef, oid: Oid)
    requires Acyclic(Links(wire))
    ensures !Stuck(wire, repo, lru, at, oid)
  {
    if Stuck(wire, repo, lru, at, oid) {
      var p :| Returns(wire, at, oid, p);
      var m :| 0 <= m < |p| && p[m] == wire.entryOf[oid];
      var loop := p[m..] + [p[m]];
      forall k | 0 <= k < |loop| - 1 ensures Links(wire)(loop[k], loop[k + 1]) {
        if k < |loop| - 2 {
          assert Hops(wire, p, m + k);
        }
      }
      assert IsCycle(Links(wire), loop);
    }
  }

  ghost function Links(wire: Wire): (WireRef, WireRef) -> bool
  {
    (a, b) => wire.Holds(a) && Link(wire, a) == Some(b)
  }

  // ------------------------------------------------------------- termination

  /** Every entry of the push. */
  ghost function Everything(wire: Wire): set<WireRef>
  {
    set p, k | 0 <= p < |wire.packs| && 0 <= k < |wire.packs[p].oids| :: WireRef(p, k)
  }

  lemma InEverything(wire: Wire, at: WireRef)
    requires wire.Holds(at)
    ensures at in Everything(wire)
  {
    assert at == WireRef(at.pack, at.at);
  }

  /** The entries still unwalked once the cursor is. */
  ghost function Unwalked(wire: Wire, walked: set<WireRef>, cursor: WireRef): nat
  {
    |Everything(wire) - walked - {cursor}|
  }

  lemma UnwalkedShrinks(wire: Wire, walked: set<WireRef>, cursor: WireRef, next: WireRef)
    ensures Unwalked(wire, walked + {cursor}, next) <= Unwalked(wire, walked, cursor)
    ensures wire.Holds(next) && next !in walked + {cursor} ==>
      Unwalked(wire, walked + {cursor}, next) < Unwalked(wire, walked, cursor)
  {
    var was := Everything(wire) - walked - {cursor};
    var now := Everything(wire) - (walked + {cursor}) - {next};
    if wire.Holds(next) && next !in walked + {cursor} {
      InEverything(wire, next);
      assert now == was - {next} && next in was;
    } else {
      assert now + (was - now) == was;
    }
  }

  // -------------------------------------------------------------- the method

  /** What the walk keeps: the hops so far feed the cursor, along its trail. */
  ghost predicate Walking(wire: Wire, at: WireRef, chain: seq<WireRef>, walked: set<WireRef>, cursor: WireRef)
    requires wire.Holds(cursor)
  {
    && Trail(wire, chain + [cursor]) && (chain + [cursor])[0] == at
    && (forall x :: x in walked <==> x in chain)
    && Feeds(wire, chain, wire.OidAt(cursor))
  }

  lemma TrailGrows(wire: Wire, p: seq<WireRef>, next: WireRef)
    requires Trail(wire, p) && |p| > 0 && wire.Holds(next) && Link(wire, p[|p| - 1]) == Some(next)
    requires wire.BaseAt(p[|p| - 1]).Ref? ==> next !in p
    ensures Trail(wire, p + [next])
  {
    var now := p + [next];
    forall k | 0 <= k < |now| - 1 ensures Hops(wire, now, k) {
      assert now[..k + 1] == p[..k + 1];
      if k < |p| - 1 {
        assert Hops(wire, p, k);
      } else {
        assert p[..k + 1] == p;
      }
    }
  }

  lemma FeedsMore(wire: Wire, chain: seq<WireRef>, cursor: WireRef, root: Oid)
    requires wire.Holds(cursor) && Feeds(wire, chain, wire.OidAt(cursor))
    requires Linked(wire, cursor) && Needs(wire, cursor) == root
    ensures Feeds(wire, chain + [cursor], root)
  {
    hide Needs;
    var now := chain + [cursor];
    forall k | 0 <= k < |now| - 1 ensures Needs(wire, now[k]) == wire.OidAt(now[k + 1]) {
      if k < |chain| - 1 {
        assert Needs(wire, chain[k]) == wire.OidAt(chain[k + 1]);
      }
    }
  }

  lemma WalkOn(wire: Wire, repo: map<Oid, Object>, at: WireRef, chain: seq<WireRef>, walked: set<WireRef>,
               cursor: WireRef, next: WireRef)
    requires Accepted(wire, repo) && wire.Holds(cursor) && Walking(wire, at, chain, walked, cursor)
    requires Link(wire, cursor) == Some(next) && (wire.BaseAt(cursor).Ref? ==> next !in walked + {cursor})
    ensures wire.Holds(next) && Walking(wire, at, chain + [cursor], walked + {cursor}, next)
  {
    hide Accepted, Trail, Feeds, Linked, Needs, Link;
    LinkHolds(wire, repo, cursor);
    TrailGrows(wire, chain + [cursor], next);
    FeedsMore(wire, chain, cursor, wire.OidAt(next));
  }

  lemma LinkHolds(wire: Wire, repo: map<Oid, Object>, at: WireRef)
    requires Accepted(wire, repo) && wire.Holds(at)
    ensures Link(wire, at).Some? ==> wire.Holds(Link(wire, at).value) && Linked(wire, at)
    ensures Link(wire, at).Some? ==> Needs(wire, at) == wire.OidAt(Link(wire, at).value)
    ensures wire.BaseAt(at).Ref? ==> Linked(wire, at) && Needs(wire, at) == wire.BaseAt(at).id
    ensures wire.BaseAt(at).InPack? ==> Link(wire, at).value.at < at.at
  {
    hide Genuine, Injective, Stored;
    AcceptedAt(wire, repo, at);
  }

  lemma WalkStart(wire: Wire, at: WireRef)
    requires wire.Holds(at)
    ensures Walking(wire, at, [], {}, at)
  {
  }

  lemma EndsWhole(wire: Wire, repo: map<Oid, Object>, lru: Lru, at: WireRef, chain: seq<WireRef>, walked: set<WireRef>,
                  cursor: WireRef)
    requires wire.Holds(cursor) && Walking(wire, at, chain, walked, cursor) && wire.BaseAt(cursor).Whole?
    ensures Ends(wire, repo, lru, at, chain + [cursor])
  {
  }

  lemma ColdStart(wire: Wire, lru: Lru, at: WireRef)
    ensures Cold(wire, lru, [] + [at])
  {
  }

  lemma ColdGrows(wire: Wire, lru: Lru, p: seq<WireRef>, next: WireRef)
    requires Cold(wire, lru, p) && wire.Holds(next) && forall e :: e in lru ==> e.0 != wire.OidAt(next)
    ensures Cold(wire, lru, p + [next])
  {
  }

  lemma HitIsCached(lru: Lru, e: (Oid, Content))
    requires e in lru
    ensures Cached(lru, e.0)
  {
  }

  /** A walk that leaves the packs ends, or is stuck, by whether what it asks for is stored or cached. */
  lemma EndsOutside(wire: Wire, repo: map<Oid, Object>, lru: Lru, at: WireRef, chain: seq<WireRef>,
                    walked: set<WireRef>, cursor: WireRef)
    requires Cold(wire, lru, chain + [cursor])
    requires Accepted(wire, repo) && wire.Holds(cursor) && Walking(wire, at, chain, walked, cursor)
    requires wire.BaseAt(cursor).Ref?
    requires var id := wire.BaseAt(cursor).id; id in wire.entryOf ==> wire.entryOf[id] in walked + {cursor}
    ensures Feeds(wire, chain + [cursor], wire.BaseAt(cursor).id)
    ensures var id := wire.BaseAt(cursor).id; id in repo || Cached(lru, id) ==>
      Ends(wire, repo, lru, at, chain + [cursor])
    ensures var id := wire.BaseAt(cursor).id; id !in repo && !Cached(lru, id) ==> Stuck(wire, repo, lru, at, id)
  {
    hide Cached, Cold, Genuine, Injective, Stored, Accepted, Feeds, Trail, Linked, Needs, DeltaOk;
    AcceptedAt(wire, repo, cursor);
    LinkHolds(wire, repo, cursor);
    FeedsMore(wire, chain, cursor, wire.BaseAt(cursor).id);
    var id := wire.BaseAt(cursor).id;
    if id !in repo && !Cached(lru, id) {
      assert Returns(wire, at, id, chain + [cursor]);
    }
  }

  lemma AcceptedStores(wire: Wire, repo: map<Oid, Object>)
    requires Accepted(wire, repo)
    ensures Stored(wire.codec, repo)
  {
  }

  lemma CachedIsGenuine(codec: Codec, lru: Lru, e: (Oid, Content))
    requires CacheOk(codec, lru) && e in lru
    ensures Genuine(codec, e.0, e.1)
  {
  }

  lemma StillOk(codec: Codec, was: Lru, lru: Lru)
    requires CacheOk(codec, was) && forall e :: e in lru <==> e in was
    ensures CacheOk(codec, lru)
  {
  }

  /** Where a chain walk leads: a root to apply it to, or an object that is nowhere. */
  datatype Found = Rooted(root: Root, chain: seq<WireRef>) | Nowhere(oid: Oid)

  /** Follows `at`'s bases to a root and the deltas above it, or reports the id the
      walk is stuck by; for every cache, nowhere exactly when it is stuck. */
  method FindRoot(cache: ByteCache, wire: Wire, repo: map<Oid, Object>, at: WireRef)
    returns (f: Found, ghost rootOid: Oid)
    requires Accepted(wire, repo) && wire.Holds(at) && cache.Valid() && CacheOk(wire.codec, cache.lru)
    modifies cache
    ensures cache.Valid() && CacheOk(wire.codec, cache.lru)
    ensures f.Rooted? ==> RootOk(wire, f.root, rootOid) && Feeds(wire, f.chain, rootOid)
    ensures f.Rooted? ==> wire.OidAt(at) == if f.chain == [] then rootOid else wire.OidAt(f.chain[0])
    ensures forall oid :: f == Nowhere(oid) <==> Stuck(wire, repo, old(cache.lru), at, oid)
    ensures f.Nowhere? || f.root.AtEntry? ==> cache.lru == old(cache.lru)
    ensures f.Rooted? && f.root.InHand? ==> cache.lru == Consulted(old(cache.lru), rootOid, f.root.content)
    ensures f.Rooted? ==> Cold(wire, old(cache.lru), f.chain + if f.root.AtEntry? then [f.root.at] else [])
  {
    hide Accepted, Genuine, Feeds, Trail, Stuck, Ends, Cached, Cold, Unwalked, CacheOk, ByteCaches.OnePer;
    hide ByteCaches.Without, ByteCaches.Size, ByteCaches.Trimmed;
    var chain: seq<WireRef> := [];
    var walked: set<WireRef> := {};
    var cursor := at;
    rootOid := wire.OidAt(at);
    ghost var lru := cache.lru;
    WalkStart(wire, at);
    ColdStart(wire, lru, at);
    AcceptedStores(wire, repo);
    while true
      invariant wire.Holds(cursor) && Walking(wire, at, chain, walked, cursor)
      invariant cache.Valid() && CacheOk(wire.codec, cache.lru)
      invariant cache.lru == lru && Cold(wire, lru, chain + [cursor])
      decreases Unwalked(wire, walked, cursor), cursor.at
    {
      LinkHolds(wire, repo, cursor);
      var before := walked;
      walked := walked + {cursor};
      var base := wire.BaseAt(cursor);
      if base.Whole? {
        EndsWhole(wire, repo, lru, at, chain, before, cursor);
        forall oid ensures !Stuck(wire, repo, lru, at, oid) {
          EndsIsNotStuck(wire, repo, lru, at, chain + [cursor], oid);
        }
        return Rooted(AtEntry(cursor), chain), wire.OidAt(cursor);
      }
      if base.Ref? && (base.id !in wire.entryOf || wire.entryOf[base.id] in walked) {
        EndsOutside(wire, repo, lru, at, chain, before, cursor);
        var found := Outside(cache, wire.codec, repo, base.id);
        if found.Missing? {
          forall oid | Stuck(wire, repo, lru, at, oid) ensures oid == base.id {
            StuckOnce(wire, repo, lru, at, oid, base.id);
          }
          return Nowhere(base.id), base.id;
        }
        forall oid ensures !Stuck(wire, repo, lru, at, oid) {
          EndsIsNotStuck(wire, repo, lru, at, chain + [cursor], oid);
        }
        assert chain + [cursor] + [] == chain + [cursor];
        return Rooted(InHand(found.content), chain + [cursor]), base.id;
      }
      var next := Link(wire, cursor).value;
      WalkOn(wire, repo, at, chain, before, cursor, next);
      UnwalkedShrinks(wire, before, cursor, next);
      chain := chain + [cursor];
      cursor := next;
      var hit := cache.Get(wire.OidAt(cursor));
      StillOk(wire.codec, lru, cache.lru);
      if hit.Some? {
        CachedIsGenuine(wire.codec, lru, (wire.OidAt(cursor), hit.value));
        HitIsCached(lru, (wire.OidAt(cursor), hit.value));
        forall oid ensures !Stuck(wire, repo, lru, at, oid) {
          WarmIsNotStuck(wire, repo, lru, at, chain + [cursor], oid);
        }
        assert chain + [] == chain;
        return Rooted(InHand(hit.value), chain), wire.OidAt(cursor);
      }
      ColdGrows(wire, lru, chain, cursor);
    }
  }

  /** Offers the cache what a walk passed through. */
  method Remember(cache: ByteCache, ghost codec: Codec, along: Lru)
    requires cache.Valid() && CacheOk(codec, cache.lru) && CacheOk(codec, along)
    modifies cache
    ensures cache.Valid() && CacheOk(codec, cache.lru)
    ensures cache.lru == AllOffered(old(cache.lru), along)
  {
    hide ByteCaches.Trimmed, ByteCaches.Without, ByteCaches.Size, ByteCaches.OnePer;
    var i := 0;
    while i < |along|
      invariant i <= |along| && cache.Valid() && CacheOk(codec, cache.lru)
      invariant cache.lru == AllOffered(old(cache.lru), along[..i])
    {
      assert along[i] in along;
      assert along[..i + 1][..i] == along[..i] && along[..i + 1][i] == along[i];
      cache.Put(along[i].0, along[i].1);
      i := i + 1;
    }
    assert along[..i] == along;
  }

  /** What a rebuild leaves cached: what reading its root left, then everything it
      passed through worth keeping, offered in turn. */
  ghost predicate Leaves(wire: Wire, was: Lru, root: Root, rootOid: Oid, chain: seq<WireRef>, lru: Lru)
  {
    && (root.AtEntry? ==> wire.Holds(root.at)) && (forall k :: 0 <= k < |chain| ==> wire.Holds(chain[k]))
    && var read := if root.AtEntry? then was else Consulted(was, rootOid, root.content);
    exists passed ::
      Contents(wire.codec, Passing(wire, root, chain), passed) && lru == AllOffered(read, Small(passed))
  }

  lemma FeedsHolds(wire: Wire, chain: seq<WireRef>, root: Oid)
    requires Feeds(wire, chain, root)
    ensures forall k :: 0 <= k < |chain| ==> wire.Holds(chain[k])
  {
  }

  /** Rebuilds the object of an entry.

      It ends; what it returns is the object the entry was identified as; and
      whatever the cache holds, it misses an object exactly when its walk is
      stuck by that object's id.
  */
  method RebuildAt(cache: ByteCache, wire: Wire, repo: map<Oid, Object>, at: WireRef) returns (r: Result)
    requires Accepted(wire, repo) && wire.Holds(at) && cache.Valid() && CacheOk(wire.codec, cache.lru)
    modifies cache
    ensures cache.Valid() && CacheOk(wire.codec, cache.lru)
    ensures !r.Corrupt?
    ensures r.Got? ==> Genuine(wire.codec, wire.OidAt(at), r.content)
    ensures forall oid :: r == Missing(oid) <==> Stuck(wire, repo, old(cache.lru), at, oid)
    ensures r.Missing? ==> cache.lru == old(cache.lru)
    ensures r.Got? ==> exists root, rootOid, chain ::
      && RootOk(wire, root, rootOid) && Feeds(wire, chain, rootOid)
      && Cold(wire, old(cache.lru), chain + if root.AtEntry? then [root.at] else [])
      && Leaves(wire, old(cache.lru), root, rootOid, chain, cache.lru)
  {
    hide Accepted, Genuine, Feeds, Stuck, CacheOk, Cold, Consulted, Contents, ByteCaches.AllOffered;
    var f, rootOid := FindRoot(cache, wire, repo, at);
    if f.Nowhere? {
      return Missing(f.oid);
    }
    FeedsHolds(wire, f.chain, rootOid);
    ghost var read := cache.lru;
    var along;
    r, along := ApplyChain(wire, repo, f.root, f.chain, rootOid, wire.OidAt(at));
    Remember(cache, wire.codec, along);
    assert Leaves(wire, old(cache.lru), f.root, rootOid, f.chain, cache.lru);
  }

  /** Asking for `oid` misses `id`: it is not cached, and either it arrived and
      its walk is stuck by `id`, or it did not and is not stored. */
  ghost predicate Misses(wire: Wire, repo: map<Oid, Object>, lru: Lru, oid: Oid, id: Oid)
  {
    && !Cached(lru, oid)
    && if oid in wire.entryOf then Stuck(wire, repo, lru, wire.entryOf[oid], id) else id == oid && oid !in repo
  }

  lemma NotCached(lru: Lru, oid: Oid)
    requires forall e :: e in lru ==> e.0 != oid
    ensures !Cached(lru, oid)
  {
  }

  /** Content by id, from the cache, the push or the repository in that order. */
  method ContentOf(cache: ByteCache, wire: Wire, repo: map<Oid, Object>, oid: Oid) returns (r: Result)
    requires Accepted(wire, repo) && cache.Valid() && CacheOk(wire.codec, cache.lru)
    modifies cache
    ensures cache.Valid() && CacheOk(wire.codec, cache.lru)
    ensures !r.Corrupt?
    ensures r.Got? ==> Genuine(wire.codec, oid, r.content)
    ensures forall id :: r == Missing(id) <==> Misses(wire, repo, old(cache.lru), oid, id)
  {
    hide Cached, Genuine, Stuck, CacheOk, EntryOk, ByteCaches.OnePer, ByteCaches.Without, ByteCaches.Size;
    ghost var was := cache.lru;
    var hit := cache.Get(oid);
    StillOk(wire.codec, was, cache.lru);
    if hit.Some? {
      CachedIsGenuine(wire.codec, was, (oid, hit.value));
      HitIsCached(was, (oid, hit.value));
      return Got(hit.value);
    }
    NotCached(was, oid);
    if oid in wire.entryOf {
      r := RebuildAt(cache, wire, repo, wire.entryOf[oid]);
    } else {
      r := Outside(cache, wire.codec, repo, oid);
    }
  }
}
