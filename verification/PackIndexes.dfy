/** Which of two copies of a commit's pack facts the second tier keeps. */
module PackIndexes {
  import opened Objects
  import opened Stride
  import opened CommitIndexes

  /** Where a commit's pack lies and what it holds; its two bitmaps are opaque bytes. */
  datatype PackNode = PackNode(entryLen: int, blobOffset: int, segmentId: int, baseOffset: int, imageLen: int,
                               trees: seq<int>, blobs: seq<int>)

  /** The fixed fields in the order they are compared: the newest segment first. */
  function Head(n: PackNode): seq<int>
  {
    [n.segmentId, n.entryLen, n.blobOffset, n.baseOffset, n.imageLen]
  }

  function PackLess(): (PackNode, PackNode) -> bool
  {
    (a, b) =>
      LexLess(Head(a), Head(b))
      || (Head(a) == Head(b) && (LexLess(a.trees, b.trees) || (a.trees == b.trees && LexLess(a.blobs, b.blobs))))
  }

  lemma HeadIs(a: PackNode, b: PackNode)
    requires Head(a) == Head(b)
    ensures a.segmentId == b.segmentId && a.entryLen == b.entryLen && a.blobOffset == b.blobOffset
    ensures a.baseOffset == b.baseOffset && a.imageLen == b.imageLen
  {
    assert Head(a)[0] == Head(b)[0] && Head(a)[1] == Head(b)[1] && Head(a)[2] == Head(b)[2];
    assert Head(a)[3] == Head(b)[3] && Head(a)[4] == Head(b)[4];
  }

  lemma PackIsTransitive(a: PackNode, b: PackNode, c: PackNode)
    requires PackLess()(a, b) && PackLess()(b, c)
    ensures PackLess()(a, c)
  {
    hide LexLess, Head;
    if LexLess(Head(a), Head(b)) && LexLess(Head(b), Head(c)) {
      LexIsTransitive(Head(a), Head(b), Head(c));
    } else if Head(a) == Head(b) == Head(c) {
      if LexLess(a.trees, b.trees) && LexLess(b.trees, c.trees) {
        LexIsTransitive(a.trees, b.trees, c.trees);
      } else if a.trees == b.trees == c.trees {
        LexIsTransitive(a.blobs, b.blobs, c.blobs);
      }
    }
  }

  /** The order is total, so joining pack facts is a lattice's join too. */
  lemma PacksAreOrdered()
    ensures TotalOrder(PackLess())
  {
    hide LexLess, Head;
    forall a ensures !PackLess()(a, a) {
      LexIsIrreflexive(Head(a));
      LexIsIrreflexive(a.trees);
      LexIsIrreflexive(a.blobs);
    }
    forall a, b, c | PackLess()(a, b) && PackLess()(b, c) ensures PackLess()(a, c) {
      PackIsTransitive(a, b, c);
    }
    forall a, b ensures a == b || PackLess()(a, b) || PackLess()(b, a) {
      LexIsTotal(Head(a), Head(b));
      LexIsTotal(a.trees, b.trees);
      LexIsTotal(a.blobs, b.blobs);
      if Head(a) == Head(b) {
        HeadIs(a, b);
      }
    }
  }

  /** Joining keeps the copy in the newest segment. */
  lemma NewestSegmentWins(a: Strided<PackNode>, b: Strided<PackNode>, r: Strided<PackNode>, x: int)
    requires IsJoin(PackLess(), a, b, r) && Get(a, x).Some? && Get(b, x).Some?
    ensures Get(r, x).Some? && Get(r, x).value.segmentId >= Get(a, x).value.segmentId
    ensures Get(r, x).value.segmentId >= Get(b, x).value.segmentId
    ensures Get(a, x).value.segmentId > Get(b, x).value.segmentId ==> Get(r, x) == Get(a, x)
    ensures Get(b, x).value.segmentId > Get(a, x).value.segmentId ==> Get(r, x) == Get(b, x)
  {
    var m, n := Get(a, x).value, Get(b, x).value;
    assert Get(r, x) == Greater(PackLess(), Get(a, x), Get(b, x));
    assert Head(m)[0] == m.segmentId && Head(n)[0] == n.segmentId;
    assert m.segmentId != n.segmentId ==> (LexLess(Head(m), Head(n)) <==> m.segmentId < n.segmentId);
    assert Head(m) == Head(n) ==> m.segmentId == n.segmentId;
  }

  /** Joining keeps the greater node by a total order, so it commutes, associates and is idempotent. */
  lemma PackJoinIsSemilattice(a: Strided<PackNode>, b: Strided<PackNode>, c: Strided<PackNode>, ab: Strided<PackNode>,
                              ba: Strided<PackNode>, bc: Strided<PackNode>, r: Strided<PackNode>, s: Strided<PackNode>,
                              aa: Strided<PackNode>)
    requires Canonical(a) && IsJoin(PackLess(), a, a, aa)
    requires IsJoin(PackLess(), a, b, ab) && IsJoin(PackLess(), b, a, ba) && IsJoin(PackLess(), b, c, bc)
    requires IsJoin(PackLess(), ab, c, r) && IsJoin(PackLess(), a, bc, s)
    ensures ab == ba && r == s && aa == a
  {
    PacksAreOrdered();
    JoinCommutes(PackLess(), a, b, ab, ba);
    JoinAssociates(PackLess(), a, b, c, ab, bc, r, s);
    JoinIsIdempotent(PackLess(), a, aa);
  }
}
