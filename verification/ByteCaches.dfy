/** A least-recently-used cache of contents, limited in bytes. */
module ByteCaches {
  import opened Objects
  import opened PackContent

  const CACHE_BYTES: nat := 128 * 1024 * 1024

  /** Anything larger is not kept. */
  const MAX_CACHED_BYTES: nat := CACHE_BYTES / 8

  /** Cached objects, least recently used first. */
  type Lru = seq<(Oid, Content)>

  function Size(lru: Lru): nat
  {
    if lru == [] then 0 else |lru[0].1| + Size(lru[1..])
  }

  /** All but `oid`'s entry. */
  function Without(lru: Lru, oid: Oid): Lru
  {
    if lru == [] then []
    else (if lru[0].0 == oid then [] else [lru[0]]) + Without(lru[1..], oid)
  }

  /** The most recent entries that fit the budget: the oldest go first. */
  function Trimmed(lru: Lru): Lru
  {
    if Size(lru) <= CACHE_BYTES then lru else Trimmed(lru[1..])
  }

  /** One entry per id. */
  ghost predicate OnePer(lru: Lru)
  {
    forall i, j :: 0 <= i < j < |lru| ==> lru[i].0 != lru[j].0
  }

  lemma {:induction false} SizeAppend(a: Lru, b: Lru)
    ensures Size(a + b) == Size(a) + Size(b)
  {
    if a == [] {
      assert a + b == b;
    } else {
      SizeAppend(a[1..], b);
      assert (a + b)[1..] == a[1..] + b;
    }
  }

  lemma {:induction false} WithoutNone(lru: Lru, oid: Oid)
    requires forall i :: 0 <= i < |lru| ==> lru[i].0 != oid
    ensures Without(lru, oid) == lru
  {
    if lru != [] {
      WithoutNone(lru[1..], oid);
    }
  }

  lemma {:induction false} WithoutOne(lru: Lru, oid: Oid, k: nat)
    requires OnePer(lru) && k < |lru| && lru[k].0 == oid
    ensures Without(lru, oid) == lru[..k] + lru[k + 1..]
  {
    if k == 0 {
      WithoutNone(lru[1..], oid);
    } else {
      WithoutOne(lru[1..], oid, k - 1);
      assert lru[..k] + lru[k + 1..] == [lru[0]] + (lru[1..][..k - 1] + lru[1..][k..]);
    }
  }

  lemma SizeWithout(lru: Lru, k: nat)
    requires k < |lru|
    ensures Size(lru) == Size(lru[..k] + lru[k + 1..]) + |lru[k].1|
  {
    SizeAppend(lru[..k], lru[k + 1..]);
    SizeAppend(lru[..k], lru[k..]);
    assert lru == lru[..k] + lru[k..];
    assert lru[k..][1..] == lru[k + 1..];
  }

  lemma {:induction false} WithoutKeeps(lru: Lru, oid: Oid, e: (Oid, Content))
    ensures e in Without(lru, oid) <==> e in lru && e.0 != oid
  {
    if lru != [] {
      WithoutKeeps(lru[1..], oid, e);
      assert lru == [lru[0]] + lru[1..];
    }
  }

  lemma {:induction false} WithoutOnePer(lru: Lru, oid: Oid)
    requires OnePer(lru)
    ensures OnePer(Without(lru, oid))
  {
    if lru != [] {
      WithoutOnePer(lru[1..], oid);
      var rest := Without(lru[1..], oid);
      forall j | 0 <= j < |rest| ensures rest[j].0 != lru[0].0 {
        WithoutKeeps(lru[1..], oid, rest[j]);
        assert rest[j] in lru[1..];
        var k :| 0 <= k < |lru[1..]| && lru[1..][k] == rest[j];
        assert lru[k + 1] == rest[j];
      }
    }
  }

  /** What entries add up to is fixed by `SizeAppend` and what one counts for. */
  lemma SizeOne(e: (Oid, Content))
    ensures Size([e]) == |e.1|
  {
    assert [e][1..] == [];
  }

  /** Trimming keeps the longest run of newest entries within budget. */
  lemma {:induction false} TrimmedIsLongest(lru: Lru)
    ensures Size(Trimmed(lru)) <= CACHE_BYTES
    ensures exists n :: 0 <= n <= |lru| && Trimmed(lru) == lru[n..] && (n == 0 || Size(lru[n - 1..]) > CACHE_BYTES)
  {
    if Size(lru) > CACHE_BYTES {
      TrimmedIsLongest(lru[1..]);
      var n :| 0 <= n <= |lru[1..]| && Trimmed(lru[1..]) == lru[1..][n..]
        && (n == 0 || Size(lru[1..][n - 1..]) > CACHE_BYTES);
      assert lru[1..][n..] == lru[n + 1..];
      assert lru[n..] == if n == 0 then lru else lru[1..][n - 1..];
    } else {
      assert lru[0..] == lru;
    }
  }

  /** It stays one per id, and keeps the newest entry if that fits alone. */
  lemma {:induction false} TrimmedFits(lru: Lru)
    ensures Size(Trimmed(lru)) <= CACHE_BYTES
    ensures OnePer(lru) ==> OnePer(Trimmed(lru))
    ensures forall e :: e in Trimmed(lru) ==> e in lru
    ensures lru != [] && |lru[|lru| - 1].1| <= CACHE_BYTES ==> lru[|lru| - 1] in Trimmed(lru)
  {
    if Size(lru) > CACHE_BYTES {
      TrimmedFits(lru[1..]);
    }
  }

  /** The cache once one content is offered, then others in turn. */
  ghost function Offered(lru: Lru, oid: Oid, content: Content): Lru
  {
    if |content| > MAX_CACHED_BYTES then lru else Trimmed(Without(lru, oid) + [(oid, content)])
  }

  ghost function AllOffered(lru: Lru, more: Lru): Lru
  {
    if more == [] then lru
    else
      var last := more[|more| - 1];
      Offered(AllOffered(lru, more[..|more| - 1]), last.0, last.1)
  }

  /** Those worth offering. */
  function Small(lru: Lru): Lru
  {
    if lru == [] then []
    else
      var last := lru[|lru| - 1];
      Small(lru[..|lru| - 1]) + if |last.1| <= MAX_CACHED_BYTES then [last] else []
  }

  lemma {:induction false} SmallKeeps(lru: Lru, e: (Oid, Content))
    ensures e in Small(lru) <==> e in lru && |e.1| <= MAX_CACHED_BYTES
  {
    if lru != [] {
      SmallKeeps(lru[..|lru| - 1], e);
      assert lru == lru[..|lru| - 1] + [lru[|lru| - 1]];
    }
  }

  class ByteCache {
    var lru: Lru
    var bytes: nat

    /** `bytes` is what the entries add up to, and within budget. */
    ghost predicate Valid()
      reads this
    {
      OnePer(lru) && bytes == Size(lru) && bytes <= CACHE_BYTES
    }

    constructor ()
      ensures Valid() && lru == []
    {
      lru, bytes := [], 0;
    }

    /** A hit is what was put, and becomes the most recent entry. */
    method Get(oid: Oid) returns (r: Option<Content>)
      requires Valid()
      modifies this
      ensures Valid()
      ensures forall e :: e in lru <==> e in old(lru)
      ensures r.Some? ==> (oid, r.value) in old(lru) && lru == Without(old(lru), oid) + [(oid, r.value)]
      ensures r.None? ==> lru == old(lru) && forall e :: e in lru ==> e.0 != oid
    {
      var k := 0;
      while k < |lru| && lru[k].0 != oid
        invariant k <= |lru| && forall i :: 0 <= i < k ==> lru[i].0 != oid
      {
        k := k + 1;
      }
      if k == |lru| {
        return None;
      }
      var hit := lru[k];
      WithoutOne(lru, oid, k);
      SizeWithout(lru, k);
      WithoutOnePer(lru, oid);
      forall e ensures e in Without(lru, oid) <==> e in lru && e.0 != oid { WithoutKeeps(lru, oid, e); }
      SizeAppend(Without(lru, oid), [hit]);
      assert forall e :: e in lru && e.0 == oid ==> e == hit;
      lru := lru[..k] + lru[k + 1..] + [hit];
      r := Some(hit.1);
    }

    /** Refuses what is too large; otherwise holds it as the newest entry,
        dropping the oldest while over budget. */
    method Put(oid: Oid, content: Content)
      requires Valid()
      modifies this
      ensures Valid()
      ensures |content| > MAX_CACHED_BYTES ==> lru == old(lru)
      ensures |content| <= MAX_CACHED_BYTES ==>
        lru == Trimmed(Without(old(lru), oid) + [(oid, content)]) && (oid, content) in lru
      ensures forall e :: e in lru ==> e in old(lru) || e == (oid, content)
    {
      if |content| > MAX_CACHED_BYTES {
        return;
      }
      var k := 0;
      while k < |lru| && lru[k].0 != oid
        invariant k <= |lru| && forall i :: 0 <= i < k ==> lru[i].0 != oid
      {
        k := k + 1;
      }
      var kept := lru;
      if k < |lru| {
        WithoutOne(lru, oid, k);
        SizeWithout(lru, k);
        bytes := bytes - |lru[k].1|;
        kept := lru[..k] + lru[k + 1..];
      } else {
        WithoutNone(lru, oid);
      }
      WithoutOnePer(lru, oid);
      forall e ensures e in Without(lru, oid) <==> e in lru && e.0 != oid { WithoutKeeps(lru, oid, e); }
      ghost var whole := kept + [(oid, content)];
      SizeAppend(kept, [(oid, content)]);
      TrimmedFits(whole);
      assert whole[|whole| - 1] == (oid, content);
      lru := kept + [(oid, content)];
      bytes := bytes + |content|;
      while bytes > CACHE_BYTES
        invariant bytes == Size(lru) && Trimmed(lru) == Trimmed(whole)
        decreases |lru|
      {
        bytes := bytes - |lru[0].1|;
        lru := lru[1..];
      }
    }
  }
}
